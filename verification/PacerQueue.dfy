// The NETUP reservoir: a bounded byte FIFO between one producer and one sender.
module PacerQueue {
  // It is cut into chunks of seven packets, in every interleaving of the two threads.
  import opened Helpers
  import opened Ts

  const PACKETS_PER_CHUNK: nat := 7
  const CHUNK: nat := PACKET * PACKETS_PER_CHUNK
  const MAX_BUFFERED: nat := 16 * 1024 * 1024
  const STARTUP_MS: nat := 1500

  // ----- Sizes -----------------------------------------------------------------

  function RoundUpToChunk(value: nat): (r: nat)
    ensures r >= CHUNK && r >= value && r % CHUNK == 0 && (r < value + CHUNK || r == CHUNK)
  {
    if value <= CHUNK then CHUNK
    else if value % CHUNK == 0 then value
    else
      assert value + (CHUNK - value % CHUNK) == (value / CHUNK + 1) * CHUNK;
      value + (CHUNK - value % CHUNK)
  }

  function StartupBytes(bitrate: nat): nat {
    var wanted := bitrate / 8 * STARTUP_MS / 1000;
    var atLeast := if wanted < CHUNK then CHUNK else wanted;
    RoundUpToChunk(if atLeast < MAX_BUFFERED - CHUNK then atLeast else MAX_BUFFERED - CHUNK)
  }

  // The startup threshold is whole chunks and always below the byte limit.
  lemma StartupFits(bitrate: nat)
    ensures CHUNK <= StartupBytes(bitrate) < MAX_BUFFERED && StartupBytes(bitrate) % CHUNK == 0
    ensures bitrate / 8 * STARTUP_MS / 1000 <= MAX_BUFFERED - CHUNK ==>
              StartupBytes(bitrate) >= bitrate / 8 * STARTUP_MS / 1000
  {
    assert MAX_BUFFERED == 12748 * CHUNK + 848;
  }

  // MAIN: the threshold is the least whole number of chunks, one at least, that hold one and a half seconds
  // at the bitrate, and 12748 chunks for rates beyond that.
  lemma StartupExactly(bitrate: nat)
    ensures var wanted, chunks := bitrate / 8 * 1500 / 1000, StartupBytes(bitrate) / 1316;
            && StartupBytes(bitrate) == chunks * 1316
            && if wanted <= 16_775_900 then chunks * 1316 >= wanted && (chunks == 1 || (chunks - 1) * 1316 < wanted)
               else chunks == 12748
  {
    var wanted := bitrate / 8 * STARTUP_MS / 1000;
    assert CHUNK == 1316 && MAX_BUFFERED - CHUNK == 16_775_900;
    assert RoundUpToChunk(16_775_900) == 12748 * 1316;
  }

  // ----- NULL chunks ---------------------------------------------------------------

  function NullPacketBytes(counter: nat): (packet: seq<Byte>)
    requires counter < 16
    ensures |packet| == PACKET
  {
    [SYNC, 0x1F, 0xFF, 0x10 + counter] + seq(PACKET - 4, _ => 0xFF)
  }

  // n NULL packets whose continuity counters start at cc.
  function NullPackets(cc: nat, n: nat): (packets: seq<Byte>)
    ensures |packets| == n * PACKET
  {
    if n == 0 then [] else NullPackets(cc, n - 1) + NullPacketBytes((cc + n - 1) % 16)
  }

  function NullChunk(cc: nat): (chunk: seq<Byte>)
    ensures |chunk| == CHUNK
  {
    NullPackets(cc, PACKETS_PER_CHUNK)
  }

  method FillNullPacket(chunk: array<Byte>, base: nat, counter: nat)
    requires base + PACKET <= chunk.Length && counter < 16
    modifies chunk
    ensures chunk[..base] == old(chunk[..base])
    ensures chunk[base..base + PACKET] == NullPacketBytes(counter)
  {
    forall k | base <= k < base + PACKET { chunk[k] := 0xFF; }
    chunk[base] := SYNC;
    chunk[base + 1] := 0x1F;
    chunk[base + 2] := 0xFF;
    chunk[base + 3] := 0x10 + counter;
    ghost var packet := chunk[base..base + PACKET];
    assert packet[0] == chunk[base] && packet[1] == chunk[base + 1];
    assert packet[2] == chunk[base + 2] && packet[3] == chunk[base + 3];
    forall k | 4 <= k < PACKET ensures packet[k] == 0xFF { assert packet[k] == chunk[base + k]; }
    NullPacketIs(packet, counter);
  }

  lemma NullPacketIs(packet: seq<Byte>, counter: nat)
    requires |packet| == PACKET && counter < 16
    requires packet[0] == SYNC && packet[1] == 0x1F && packet[2] == 0xFF && packet[3] == 0x10 + counter
    requires forall k :: 4 <= k < PACKET ==> packet[k] == 0xFF
    ensures packet == NullPacketBytes(counter)
  {
  }

  lemma OneMorePacket(chunk: seq<Byte>, cc: nat, p: nat, base: nat)
    requires base + PACKET <= |chunk| && chunk[..base] == NullPackets(cc, p)
    requires chunk[base..base + PACKET] == NullPacketBytes((cc + p) % 16)
    ensures chunk[..base + PACKET] == NullPackets(cc, p + 1)
  {
    assert chunk[..base + PACKET] == chunk[..base] + chunk[base..base + PACKET];
  }

  method FillNullChunk(chunk: array<Byte>, continuity: nat) returns (after: nat)
    requires chunk.Length == CHUNK && continuity < 16
    modifies chunk
    ensures chunk[..] == NullChunk(continuity)
    ensures after == (continuity + PACKETS_PER_CHUNK) % 16
  {
    var base := 0;
    after := continuity;
    for p := 0 to PACKETS_PER_CHUNK
      invariant base + (PACKETS_PER_CHUNK - p) * PACKET == CHUNK && base >= 0
      invariant after == (continuity + p) % 16
      invariant chunk[..base] == NullPackets(continuity, p)
    {
      PacketsLeft(p);
      FillNullPacket(chunk, base, after);
      OneMorePacket(chunk[..], continuity, p, base);
      NextModulo(continuity + p);
      base, after := base + PACKET, (after + 1) % 16;
    }
    assert chunk[..] == chunk[..base];
  }

  lemma PacketsLeft(p: nat)
    requires p < PACKETS_PER_CHUNK
    ensures (PACKETS_PER_CHUNK - p) * PACKET == PACKET + (PACKETS_PER_CHUNK - (p + 1)) * PACKET
    ensures (PACKETS_PER_CHUNK - (p + 1)) * PACKET >= 0
  {
  }

  lemma NextModulo(x: nat)
    ensures (x % 16 + 1) % 16 == (x + 1) % 16
  {
  }

  // ----- State --------------------------------------------------------------------------

  datatype Chunk = Chunk(bytes: seq<Byte>, media: bool)

  datatype Sender =
    | Waiting                  // for the startup reservoir
    | LoopHead                 // before the stop check
    | Pulling                  // before popChunk
    | Starved                  // popChunk returned false
    | Holding(chunk: Chunk)    // before the downstream push
    | Ended                    // upstream ended, less than a chunk left
    | Stopped                  // saw the stop flag
    | Refused(chunk: Chunk)    // downstream returned an error for this chunk

  datatype State = State(
    buffers: seq<seq<Byte>>, frontOffset: nat, queued: nat,
    stopping: bool, ended: bool, startup: nat, sender: Sender, continuity: nat,
    accepted: seq<Byte>, sent: seq<Chunk>)

  datatype Action =
    | Push(bytes: seq<Byte>)   // pushBuffer, once its wait is over
    | UpstreamEos
    | Stop
    | Wake                     // waitForStartup returns
    | CheckStop
    | Pop
    | FillOrFinish             // shouldStopAfterEos, then NULL fill
    | Emit(ok: bool)

  function Start(bitrate: nat): State {
    State([], 0, 0, false, false, StartupBytes(bitrate), Waiting, 0, [], [])
  }

  ghost predicate WellFormed(buffers: seq<seq<Byte>>, frontOffset: nat) {
    && (forall i :: 0 <= i < |buffers| ==> buffers[i] != [])
    && (buffers == [] ==> frontOffset == 0)
    && (buffers != [] ==> frontOffset < |buffers[0]|)
  }

  // The bytes still to be sent.
  function Contents(buffers: seq<seq<Byte>>, frontOffset: nat): seq<Byte>
    requires buffers == [] ==> frontOffset == 0
    requires buffers != [] ==> frontOffset < |buffers[0]|
  {
    if buffers == [] then [] else buffers[0][frontOffset..] + Concat(buffers[1..])
  }

  // What is left of the buffers after the first n bytes.
  function DropBytes(buffers: seq<seq<Byte>>, frontOffset: nat, n: nat): (seq<seq<Byte>>, nat)
    decreases |buffers|
  {
    if n == 0 || buffers == [] || frontOffset > |buffers[0]| then (buffers, frontOffset)
    else
      var available := |buffers[0]| - frontOffset;
      if n < available then (buffers, frontOffset + n)
      else DropBytes(buffers[1..], 0, n - available)
  }

  predicate HasSpace(s: State, size: nat) { s.queued + size <= MAX_BUFFERED }

  predicate StartupReached(s: State) {
    s.queued >= s.startup || (s.ended && s.queued >= CHUNK)
  }

  predicate Enabled(s: State, a: Action) {
    && (s.buffers == [] ==> s.frontOffset == 0)
    && (s.buffers != [] ==> s.frontOffset < |s.buffers[0]|)
    && match a
       case Push(bytes) => !s.stopping && 0 < |bytes| <= MAX_BUFFERED && HasSpace(s, |bytes|)
       case UpstreamEos => true
       case Stop => true
       case Wake => s.sender.Waiting? && (s.stopping || StartupReached(s))
       case CheckStop => s.sender.LoopHead?
       case Pop => s.sender.Pulling?
       case FillOrFinish => s.sender.Starved?
       case Emit(_) => s.sender.Holding?
  }

  function PopStep(s: State): State
    requires Enabled(s, Pop)
  {
    if s.queued < CHUNK || |Contents(s.buffers, s.frontOffset)| < CHUNK then s.(sender := Starved)
    else
      var left := DropBytes(s.buffers, s.frontOffset, CHUNK);
      s.(buffers := left.0, frontOffset := left.1, queued := s.queued - CHUNK,
         sender := Holding(Chunk(Contents(s.buffers, s.frontOffset)[..CHUNK], true)))
  }

  function Apply(s: State, a: Action): State {
    if !Enabled(s, a) then s
    else match a
      case Push(bytes) =>
        s.(buffers := s.buffers + [bytes], queued := s.queued + |bytes|, accepted := s.accepted + bytes)
      case UpstreamEos => s.(ended := true)
      case Stop => s.(stopping := true)
      case Wake => s.(sender := if !s.stopping && s.queued >= CHUNK then LoopHead else Stopped)
      case CheckStop => s.(sender := if s.stopping then Stopped else Pulling)
      case Pop => PopStep(s)
      case FillOrFinish =>
        if s.ended && s.queued < CHUNK then s.(sender := Ended)
        else s.(sender := Holding(Chunk(NullChunk(s.continuity), false)),
                continuity := (s.continuity + PACKETS_PER_CHUNK) % 16)
      case Emit(ok) =>
        if ok then s.(sent := s.sent + [s.sender.chunk], sender := LoopHead)
        else s.(sender := Refused(s.sender.chunk))
  }

  function Exec(s: State, run: seq<Action>): State
    decreases |run|
  {
    if run == [] then s else Exec(Apply(s, run[0]), run[1..])
  }

  // ----- FIFO refinement ---------------------------------------------------------------------

  function RealCount(sent: seq<Chunk>): nat {
    if sent == [] then 0 else RealCount(sent[..|sent| - 1]) + (if sent[|sent| - 1].media then 1 else 0)
  }

  // The continuity counter behind n NULL chunks.
  function CounterAfter(n: nat): nat {
    if n == 0 then 0 else (CounterAfter(n - 1) + PACKETS_PER_CHUNK) % 16
  }

  // The continuity counter of a NULL chunk behind i chunks, r of them real.
  function NullCounter(i: nat, r: nat): nat {
    CounterAfter(if i >= r then i - r else 0)
  }

  // Chunk i of the output: the next seven packets of the input if it is real, seven
  // NULL packets continuing the previous ones if not.
  ghost predicate ChunkInOrder(sent: seq<Chunk>, accepted: seq<Byte>, i: nat) {
    && i < |sent|
    && var r := RealCount(sent[..i]);
    && if sent[i].media
       then CHUNK * (r + 1) <= |accepted| && sent[i].bytes == accepted[CHUNK * r..CHUNK * (r + 1)]
       else sent[i].bytes == NullChunk(NullCounter(i, r))
  }

  // The output is decided by the accepted bytes and by where NULL chunks went.
  ghost predicate InOrder(sent: seq<Chunk>, accepted: seq<Byte>) {
    forall i :: 0 <= i < |sent| ==> ChunkInOrder(sent, accepted, i)
  }

  // Chunks out of the sender's hands or in them.
  function OnTheWay(s: State): seq<Chunk> {
    match s.sender
    case Holding(c) => s.sent + [c]
    case Refused(c) => s.sent + [c]
    case _ => s.sent
  }

  ghost predicate Inv(s: State) {
    && WellFormed(s.buffers, s.frontOffset)
    && s.queued == |Contents(s.buffers, s.frontOffset)| <= MAX_BUFFERED
    && InOrder(OnTheWay(s), s.accepted)
    && |s.accepted| == CHUNK * RealCount(OnTheWay(s)) + s.queued
    && Contents(s.buffers, s.frontOffset) == s.accepted[CHUNK * RealCount(OnTheWay(s))..]
    && s.continuity == NullCounter(|OnTheWay(s)|, RealCount(OnTheWay(s)))
    && (s.sender.Waiting? ==> s.sent == [])
  }

  lemma {:induction false} ConcatAppend(buffers: seq<seq<Byte>>, x: seq<Byte>)
    ensures Concat(buffers + [x]) == Concat(buffers) + x
  {
    if buffers == [] {
      assert [] + [x] == [x] && [x][1..] == [];
    } else {
      ConcatAppend(buffers[1..], x);
      assert (buffers + [x])[1..] == buffers[1..] + [x];
    }
  }

  lemma ContentsAppend(buffers: seq<seq<Byte>>, frontOffset: nat, x: seq<Byte>)
    requires WellFormed(buffers, frontOffset) && x != []
    ensures WellFormed(buffers + [x], frontOffset)
    ensures Contents(buffers + [x], frontOffset) == Contents(buffers, frontOffset) + x
  {
    if buffers == [] {
      assert [] + [x] == [x] && [x][1..] == [];
    } else {
      ConcatAppend(buffers[1..], x);
      assert (buffers + [x])[1..] == buffers[1..] + [x];
      Associate(buffers[0][frontOffset..], Concat(buffers[1..]), x);
    }
  }

  lemma SliceOn(s: seq<Byte>, at: nat, n: nat)
    requires at + n <= |s|
    ensures s[..at + n] == s[..at] + s[at..][..n]
    ensures s[at..][n..] == s[at + n..]
  {
  }

  lemma ContentsFromZero(buffers: seq<seq<Byte>>)
    requires WellFormed(buffers, 0)
    ensures Contents(buffers, 0) == Concat(buffers)
  {
    if buffers != [] { assert buffers[0][0..] == buffers[0]; }
  }

  lemma {:induction false} DropIsContents(buffers: seq<seq<Byte>>, frontOffset: nat, n: nat)
    requires WellFormed(buffers, frontOffset) && n <= |Contents(buffers, frontOffset)|
    ensures var left := DropBytes(buffers, frontOffset, n);
            WellFormed(left.0, left.1) && Contents(left.0, left.1) == Contents(buffers, frontOffset)[n..]
    decreases |buffers|
  {
    if n != 0 && buffers != [] {
      var available := |buffers[0]| - frontOffset;
      if n < available {
        assert buffers[0][frontOffset + n..] == buffers[0][frontOffset..][n..];
      } else {
        ContentsFromZero(buffers[1..]);
        DropIsContents(buffers[1..], 0, n - available);
      }
    }
  }

  lemma RealCountAppend(sent: seq<Chunk>, c: Chunk)
    ensures RealCount(sent + [c]) == RealCount(sent) + (if c.media then 1 else 0)
  {
    assert (sent + [c])[..|sent|] == sent;
  }

  lemma {:induction false} RealCountAtMost(sent: seq<Chunk>, i: nat)
    requires i <= |sent|
    ensures RealCount(sent[..i]) <= i && RealCount(sent[..i]) <= RealCount(sent)
    decreases |sent|
  {
    if i < |sent| {
      RealCountAtMost(sent[..|sent| - 1], i);
      assert sent[..|sent| - 1][..i] == sent[..i];
    } else {
      assert sent[..i] == sent;
      if i > 0 {
        RealCountAtMost(sent[..i - 1], i - 1);
        assert sent[..i - 1][..i - 1] == sent[..i - 1];
      }
    }
  }

  lemma InOrderGrows(sent: seq<Chunk>, accepted: seq<Byte>, more: seq<Byte>)
    requires InOrder(sent, accepted)
    ensures InOrder(sent, accepted + more)
  {
    forall i | 0 <= i < |sent|
      ensures ChunkInOrder(sent, accepted + more, i)
    {
      assert ChunkInOrder(sent, accepted, i);
      var r := RealCount(sent[..i]);
      if sent[i].media {
        assert (accepted + more)[CHUNK * r..CHUNK * (r + 1)] == accepted[CHUNK * r..CHUNK * (r + 1)];
      }
    }
  }

  lemma InOrderExtends(sent: seq<Chunk>, accepted: seq<Byte>, c: Chunk)
    requires InOrder(sent, accepted) && ChunkInOrder(sent + [c], accepted, |sent|)
    ensures InOrder(sent + [c], accepted)
  {
    forall i | 0 <= i < |sent| + 1
      ensures ChunkInOrder(sent + [c], accepted, i)
    {
      if i < |sent| {
        assert ChunkInOrder(sent, accepted, i);
        assert (sent + [c])[..i] == sent[..i];
      }
    }
  }

  lemma PushKeepsInv(s: State, bytes: seq<Byte>)
    requires Inv(s) && Enabled(s, Push(bytes))
    ensures Inv(Apply(s, Push(bytes)))
  {
    var t := Apply(s, Push(bytes));
    var r := CHUNK * RealCount(OnTheWay(s));
    ContentsAppend(s.buffers, s.frontOffset, bytes);
    InOrderGrows(OnTheWay(s), s.accepted, bytes);
    DropAppend(s.accepted, bytes, r);
    assert OnTheWay(t) == OnTheWay(s);
  }

  lemma DropAppend(a: seq<Byte>, b: seq<Byte>, k: nat)
    requires k <= |a|
    ensures (a + b)[k..] == a[k..] + b
  {
  }

  lemma MediaChunkInOrder(sent: seq<Chunk>, accepted: seq<Byte>, r: nat)
    requires InOrder(sent, accepted) && r == RealCount(sent) && CHUNK * (r + 1) <= |accepted|
    ensures InOrder(sent + [Chunk(accepted[CHUNK * r..CHUNK * (r + 1)], true)], accepted)
  {
    var c := Chunk(accepted[CHUNK * r..CHUNK * (r + 1)], true);
    assert (sent + [c])[..|sent|] == sent;
    assert ChunkInOrder(sent + [c], accepted, |sent|);
    InOrderExtends(sent, accepted, c);
  }

  lemma WholeCountAtMost(way: seq<Chunk>)
    ensures RealCount(way) <= |way|
  {
    assert way[..|way|] == way;
    RealCountAtMost(way, |way|);
  }

  // The next chunk of the input goes on its way.
  lemma MediaOnItsWay(way: seq<Chunk>, accepted: seq<Byte>, r: nat)
    requires InOrder(way, accepted) && r == RealCount(way) && CHUNK * (r + 1) <= |accepted|
    ensures var c := Chunk(accepted[CHUNK * r..CHUNK * (r + 1)], true);
            && InOrder(way + [c], accepted) && RealCount(way + [c]) == r + 1
            && NullCounter(|way + [c]|, r + 1) == NullCounter(|way|, r)
  {
    MediaChunkInOrder(way, accepted, r);
    RealCountAppend(way, Chunk(accepted[CHUNK * r..CHUNK * (r + 1)], true));
    WholeCountAtMost(way);
    NextCounter(|way|, r);
  }

  lemma MediaInHandKeepsInv(s: State, t: State, r: nat)
    requires Inv(s) && OnTheWay(s) == s.sent && r == RealCount(s.sent) && CHUNK * (r + 1) <= |s.accepted|
    requires OnTheWay(t) == s.sent + [Chunk(s.accepted[CHUNK * r..CHUNK * (r + 1)], true)]
    requires t.accepted == s.accepted && t.continuity == s.continuity && t.queued + CHUNK == s.queued
    requires !t.sender.Waiting? && WellFormed(t.buffers, t.frontOffset)
    requires Contents(t.buffers, t.frontOffset) == s.accepted[CHUNK * (r + 1)..]
    ensures Inv(t)
  {
    ChunkEnd(r);
    MediaOnItsWay(s.sent, s.accepted, r);
  }

  lemma PopKeepsInv(s: State)
    requires Inv(s) && Enabled(s, Pop)
    ensures Inv(PopStep(s))
  {
    var t := PopStep(s);
    if s.queued >= CHUNK {
      var r := RealCount(s.sent);
      ChunkEnd(r);
      DropIsContents(s.buffers, s.frontOffset, CHUNK);
      ChunkOff(s.accepted, CHUNK * r, CHUNK);
      assert s.accepted[CHUNK * r..][..CHUNK] == s.accepted[CHUNK * r..CHUNK * (r + 1)];
      MediaInHandKeepsInv(s, t, r);
    } else {
      SameFlowKeepsInv(s, s.(sender := Starved));
    }
  }

  lemma ChunkEnd(r: nat)
    ensures CHUNK * (r + 1) == CHUNK * r + CHUNK
  {
  }

  lemma ChunkOff(s: seq<Byte>, at: nat, n: nat)
    requires at + n <= |s|
    ensures s[at..][..n] == s[at..at + n] && s[at..][n..] == s[at + n..]
  {
  }

  lemma NextCounter(i: nat, r: nat)
    requires r <= i
    ensures (NullCounter(i, r) + PACKETS_PER_CHUNK) % 16 == NullCounter(i + 1, r)
    ensures NullCounter(i + 1, r + 1) == NullCounter(i, r)
  {
  }

  lemma NullChunkInOrder(sent: seq<Chunk>, accepted: seq<Byte>)
    requires InOrder(sent, accepted)
    ensures InOrder(sent + [Chunk(NullChunk(NullCounter(|sent|, RealCount(sent))), false)], accepted)
  {
    var c := Chunk(NullChunk(NullCounter(|sent|, RealCount(sent))), false);
    assert (sent + [c])[..|sent|] == sent;
    assert ChunkInOrder(sent + [c], accepted, |sent|);
    InOrderExtends(sent, accepted, c);
  }

  // A NULL chunk goes on its way.
  lemma NullOnItsWay(way: seq<Chunk>, accepted: seq<Byte>, continuity: nat)
    requires InOrder(way, accepted) && continuity == NullCounter(|way|, RealCount(way))
    ensures var c := Chunk(NullChunk(continuity), false);
            && InOrder(way + [c], accepted) && RealCount(way + [c]) == RealCount(way)
            && (continuity + PACKETS_PER_CHUNK) % 16 == NullCounter(|way + [c]|, RealCount(way))
  {
    NullChunkInOrder(way, accepted);
    RealCountAppend(way, Chunk(NullChunk(continuity), false));
    WholeCountAtMost(way);
    NextCounter(|way|, RealCount(way));
  }

  lemma NullInHandKeepsInv(s: State, t: State)
    requires Inv(s) && OnTheWay(s) == s.sent
    requires OnTheWay(t) == s.sent + [Chunk(NullChunk(s.continuity), false)]
    requires t.continuity == (s.continuity + PACKETS_PER_CHUNK) % 16 && t.accepted == s.accepted
    requires t.buffers == s.buffers && t.frontOffset == s.frontOffset && t.queued == s.queued
    requires !t.sender.Waiting?
    ensures Inv(t)
  {
    NullOnItsWay(s.sent, s.accepted, s.continuity);
  }

  lemma FillFrame(s: State)
    requires Enabled(s, FillOrFinish)
    ensures var t := Apply(s, FillOrFinish);
            && OnTheWay(s) == s.sent && t.accepted == s.accepted && !t.sender.Waiting?
            && t.buffers == s.buffers && t.frontOffset == s.frontOffset && t.queued == s.queued
            && if s.ended && s.queued < CHUNK then OnTheWay(t) == s.sent && t.continuity == s.continuity
               else
                 && OnTheWay(t) == s.sent + [Chunk(NullChunk(s.continuity), false)]
                 && t.continuity == (s.continuity + PACKETS_PER_CHUNK) % 16
  {
  }

  lemma FillKeepsInv(s: State)
    requires Inv(s) && Enabled(s, FillOrFinish)
    ensures Inv(Apply(s, FillOrFinish))
  {
    FillFrame(s);
    if s.ended && s.queued < CHUNK {
      SameFlowKeepsInv(s, Apply(s, FillOrFinish));
    } else {
      NullInHandKeepsInv(s, Apply(s, FillOrFinish));
    }
  }

  lemma SameFlowKeepsInv(s: State, t: State)
    requires Inv(s) && OnTheWay(t) == OnTheWay(s) && t.accepted == s.accepted && t.continuity == s.continuity
    requires t.buffers == s.buffers && t.frontOffset == s.frontOffset && t.queued == s.queued
    requires t.sender.Waiting? ==> t.sent == []
    ensures Inv(t)
  {
  }

  // Steps that neither move bytes nor change what is on its way.
  lemma QuietStepKeepsInv(s: State, a: Action)
    requires Inv(s) && Enabled(s, a) && !a.Push? && !a.Pop? && !a.FillOrFinish?
    ensures Inv(Apply(s, a))
  {
    QuietStepFrame(s, a);
    SameFlowKeepsInv(s, Apply(s, a));
  }

  lemma QuietStepFrame(s: State, a: Action)
    requires Enabled(s, a) && !a.Push? && !a.Pop? && !a.FillOrFinish?
    ensures var t := Apply(s, a);
            && OnTheWay(t) == OnTheWay(s) && t.accepted == s.accepted && t.continuity == s.continuity
            && t.buffers == s.buffers && t.frontOffset == s.frontOffset && t.queued == s.queued
            && (t.sender.Waiting? ==> s.sender.Waiting? && t.sent == s.sent)
  {
  }

  lemma StepKeepsInv(s: State, a: Action)
    requires Inv(s)
    ensures Inv(Apply(s, a))
  {
    if Enabled(s, a) {
      match a
      case Push(bytes) => PushKeepsInv(s, bytes);
      case Pop => PopKeepsInv(s);
      case FillOrFinish => FillKeepsInv(s);
      case _ => QuietStepKeepsInv(s, a);
    }
  }

  lemma {:induction false} RunKeepsInv(s: State, run: seq<Action>)
    requires Inv(s)
    ensures Inv(Exec(s, run))
    decreases |run|
  {
    if run != [] {
      StepKeepsInv(s, run[0]);
      RunKeepsInv(Apply(s, run[0]), run[1..]);
    }
  }

  lemma InvSentInOrder(s: State)
    requires Inv(s)
    ensures InOrder(s.sent, s.accepted)
  {
    forall i | 0 <= i < |s.sent|
      ensures ChunkInOrder(s.sent, s.accepted, i)
    {
      assert ChunkInOrder(OnTheWay(s), s.accepted, i);
      assert OnTheWay(s)[..i] == s.sent[..i];
    }
  }

  ghost predicate Refines(s: State) {
    && InOrder(s.sent, s.accepted)
    && WellFormed(s.buffers, s.frontOffset)
    && s.queued == |Contents(s.buffers, s.frontOffset)| <= MAX_BUFFERED
    && s.queued <= |s.accepted|
    && Contents(s.buffers, s.frontOffset) == s.accepted[|s.accepted| - s.queued..]
    && (s.sender.Waiting? ==> s.sent == [])
  }

  lemma InvRefines(s: State)
    requires Inv(s)
    ensures Refines(s)
  {
    InvSentInOrder(s);
  }

  // Every interleaving: the sent chunks are the accepted bytes cut at chunk
  // boundaries, with whole NULL chunks between them, and the queue holds the rest.
  lemma FifoRefinement(bitrate: nat, run: seq<Action>)
    ensures Refines(Exec(Start(bitrate), run))
  {
    StartInv(bitrate);
    RunKeepsInv(Start(bitrate), run);
    InvRefines(Exec(Start(bitrate), run));
  }

  lemma StartInv(bitrate: nat)
    ensures Inv(Start(bitrate))
  {
  }

  function RealBytes(sent: seq<Chunk>): seq<Byte> {
    if sent == [] then []
    else RealBytes(sent[..|sent| - 1]) + (if sent[|sent| - 1].media then sent[|sent| - 1].bytes else [])
  }

  lemma {:induction false} InOrderIsPrefix(sent: seq<Chunk>, accepted: seq<Byte>)
    requires InOrder(sent, accepted)
    ensures CHUNK * RealCount(sent) <= |accepted|
    ensures RealBytes(sent) == accepted[..CHUNK * RealCount(sent)]
    decreases |sent|
  {
    if sent != [] {
      var n := |sent| - 1;
      forall i | 0 <= i < n
        ensures ChunkInOrder(sent[..n], accepted, i)
      {
        assert ChunkInOrder(sent, accepted, i);
        assert sent[..n][..i] == sent[..i];
      }
      InOrderIsPrefix(sent[..n], accepted);
      assert ChunkInOrder(sent, accepted, n);
      if sent[n].media { Joined(accepted, CHUNK * RealCount(sent[..n])); }
    }
  }

  lemma Joined(s: seq<Byte>, at: nat)
    requires at + CHUNK <= |s|
    ensures s[..at] + s[at..at + CHUNK] == s[..at + CHUNK]
  {
  }

  // Packet p of some bytes cut into packets.
  function PacketOf(bytes: seq<Byte>, p: nat): seq<Byte>
    requires PACKET * (p + 1) <= |bytes|
  {
    bytes[PACKET * p..PACKET * (p + 1)]
  }

  predicate IsNullPacket(packet: seq<Byte>, counter: nat)
    requires counter < 16
  {
    && |packet| == PACKET
    && packet[..4] == [SYNC, 0x1F, 0xFF, 0x10 + counter]
    && forall k :: 4 <= k < PACKET ==> packet[k] == 0xFF
  }

  lemma PacketInChunk(p: nat)
    requires p < PACKETS_PER_CHUNK
    ensures PACKET * (p + 1) <= CHUNK
  {
  }

  // Packet alignment of the output: packet p of chunk i is a packet of the input at a
  // multiple of 188 bytes, or a NULL packet; the n-th NULL packet ever sent carries
  // the counter n mod 16.
  lemma OutputPackets(sent: seq<Chunk>, accepted: seq<Byte>, i: nat, r: nat, p: nat)
    requires InOrder(sent, accepted) && i < |sent| && r == RealCount(sent[..i]) && p < PACKETS_PER_CHUNK
    ensures r <= i && |sent[i].bytes| == CHUNK && PACKET * (p + 1) <= CHUNK
    ensures sent[i].media ==> IsInputPacket(PacketOf(sent[i].bytes, p), accepted, PACKETS_PER_CHUNK * r + p)
    ensures !sent[i].media ==> IsNullPacket(PacketOf(sent[i].bytes, p), (PACKETS_PER_CHUNK * (i - r) + p) % 16)
  {
    assert ChunkInOrder(sent, accepted, i);
    PacketInChunk(p);
    WholeCountAtMost(sent[..i]);
    if sent[i].media {
      MediaPacket(sent[i].bytes, accepted, r, p);
    } else {
      NumberedNullPacket(sent[i].bytes, i, r, p, PACKETS_PER_CHUNK * (i - r) + p);
    }
  }

  predicate IsInputPacket(packet: seq<Byte>, accepted: seq<Byte>, m: nat) {
    PACKET * (m + 1) <= |accepted| && packet == PacketOf(accepted, m)
  }

  lemma NumberedNullPacket(bytes: seq<Byte>, i: nat, r: nat, p: nat, n: nat)
    requires r <= i && p < PACKETS_PER_CHUNK && n == PACKETS_PER_CHUNK * (i - r) + p
    requires bytes == NullChunk(NullCounter(i, r))
    ensures PACKET * (p + 1) <= |bytes|
    ensures IsNullPacket(PacketOf(bytes, p), n % 16)
  {
    NullPacketOf(NullCounter(i, r), PACKETS_PER_CHUNK, p);
    PacketCounter(i, r, p);
    NullPacketIsNull(n % 16);
  }

  lemma MediaPacket(bytes: seq<Byte>, accepted: seq<Byte>, r: nat, p: nat)
    requires CHUNK * (r + 1) <= |accepted| && bytes == accepted[CHUNK * r..CHUNK * (r + 1)] && p < PACKETS_PER_CHUNK
    ensures |bytes| == CHUNK && PACKET * (p + 1) <= CHUNK
    ensures IsInputPacket(PacketOf(bytes, p), accepted, PACKETS_PER_CHUNK * r + p)
  {
    PacketInChunk(p);
    ChunkEnd(r);
    PacketNumber(r, p);
    SliceOfSlice(accepted, CHUNK * r, CHUNK * (r + 1), PACKET * p, PACKET * (p + 1));
  }

  lemma PacketNumber(r: nat, p: nat)
    ensures PACKET * (PACKETS_PER_CHUNK * r + p) == CHUNK * r + PACKET * p
    ensures PACKET * (PACKETS_PER_CHUNK * r + p + 1) == CHUNK * r + PACKET * (p + 1)
  {
  }

  lemma SliceOfSlice(s: seq<Byte>, a: nat, b: nat, c: nat, d: nat)
    requires a <= b <= |s| && c <= d <= b - a
    ensures s[a..b][c..d] == s[a + c..a + d]
  {
    forall k | 0 <= k < d - c
      ensures s[a..b][c..d][k] == s[a + c..a + d][k]
    {
      assert s[a..b][c + k] == s[a + c + k];
    }
  }

  lemma AddModulo(x: nat, y: nat)
    ensures (x % 16 + y) % 16 == (x + y) % 16
  {
  }

  lemma {:induction false} CounterIsModulo(n: nat)
    ensures CounterAfter(n) == PACKETS_PER_CHUNK * n % 16
  {
    if n > 0 {
      CounterIsModulo(n - 1);
      AddModulo(PACKETS_PER_CHUNK * (n - 1), PACKETS_PER_CHUNK);
    }
  }

  lemma PacketCounter(i: nat, r: nat, p: nat)
    requires r <= i
    ensures (NullCounter(i, r) + p) % 16 == (PACKETS_PER_CHUNK * (i - r) + p) % 16
  {
    CounterIsModulo(i - r);
    AddModulo(PACKETS_PER_CHUNK * (i - r), p);
  }

  lemma {:induction false} NullPacketOf(cc: nat, n: nat, p: nat)
    requires p < n
    ensures PACKET * (p + 1) <= n * PACKET
    ensures PacketOf(NullPackets(cc, n), p) == NullPacketBytes((cc + p) % 16)
    decreases n
  {
    var front, last := NullPackets(cc, n - 1), NullPacketBytes((cc + n - 1) % 16);
    if p < n - 1 {
      NullPacketOf(cc, n - 1, p);
      SliceInFront(front, last, PACKET * p, PACKET * (p + 1));
    } else {
      SliceBehind(front, last);
    }
  }

  lemma SliceInFront(a: seq<Byte>, b: seq<Byte>, i: nat, j: nat)
    requires i <= j <= |a|
    ensures (a + b)[i..j] == a[i..j]
  {
  }

  lemma SliceBehind(a: seq<Byte>, b: seq<Byte>)
    ensures (a + b)[|a|..|a| + |b|] == b
  {
  }

  lemma NullPacketIsNull(counter: nat)
    requires counter < 16
    ensures IsNullPacket(NullPacketBytes(counter), counter)
  {
    var head: seq<Byte> := [SYNC, 0x1F, 0xFF, 0x10 + counter];
    assert (head + seq(PACKET - 4, _ => 0xFF))[..4] == head;
  }

  // When the sender finishes because upstream ended, everything but the last
  // incomplete chunk has been sent.
  lemma EndedMeansAllWholeChunksSent(bitrate: nat, run: seq<Action>)
    requires var s := Exec(Start(bitrate), run);
             !s.sender.Ended? && Apply(s, FillOrFinish).sender.Ended?
    ensures var s := Apply(Exec(Start(bitrate), run), FillOrFinish);
            RealBytes(s.sent) == s.accepted[..|s.accepted| / CHUNK * CHUNK]
  {
    StartInv(bitrate);
    RunKeepsInv(Start(bitrate), run);
    LessThanAChunkLeft(Exec(Start(bitrate), run));
  }

  lemma LessThanAChunkLeft(s: State)
    requires Inv(s) && s.sender.Starved? && s.queued < CHUNK
    ensures RealBytes(s.sent) == s.accepted[..|s.accepted| / CHUNK * CHUNK]
  {
    InOrderIsPrefix(s.sent, s.accepted);
    WholeChunks(RealCount(s.sent), s.queued);
  }

  lemma WholeChunks(r: nat, q: nat)
    requires q < CHUNK
    ensures (CHUNK * r + q) / CHUNK * CHUNK == CHUNK * r
  {
  }

  // ----- Startup deadlock -------------------------------------------------------------------------

  // The producer waits for space for `size` bytes while the sender waits for the
  // startup reservoir: neither can ever move.
  predicate Deadlocked(s: State, size: nat) {
    s.sender.Waiting? && !s.stopping && !StartupReached(s) && !HasSpace(s, size)
  }

  ghost predicate BuffersAtMost(run: seq<Action>, M: nat) {
    forall i :: 0 <= i < |run| && run[i].Push? ==> |run[i].bytes| <= M
  }

  // n one-byte buffers.
  function Trickle(n: nat): seq<Action> {
    seq(n, _ => Push([0]))
  }

  lemma {:induction false} TrickleFills(s: State, n: nat)
    requires Inv(s) && s.sender.Waiting? && !s.stopping && !s.ended && s.queued + n <= MAX_BUFFERED
    ensures var t := Exec(s, Trickle(n));
            && t.sender.Waiting? && !t.stopping && !t.ended
            && t.queued == s.queued + n && t.startup == s.startup
    decreases n
  {
    if n > 0 {
      StepKeepsInv(s, Push([0]));
      assert Trickle(n)[1..] == Trickle(n - 1);
      TrickleFills(Apply(s, Push([0])), n - 1);
    }
  }

  lemma {:induction false} StartupIsFixed(s: State, run: seq<Action>)
    ensures Exec(s, run).startup == s.startup
    decreases |run|
  {
    if run != [] { StartupIsFixed(Apply(s, run[0]), run[1..]); }
  }

  // With buffers of at most M bytes the two waits can meet exactly when M leaves
  // room for a queue below the startup threshold that is still too full.
  lemma DeadlockExactlyForLargeBuffers(bitrate: nat, M: nat)
    requires 0 < M <= MAX_BUFFERED
    ensures (exists run, size: nat :: size <= M && BuffersAtMost(run, M) && Deadlocked(Exec(Start(bitrate), run), size))
       <==> M >= MAX_BUFFERED - StartupBytes(bitrate) + 2
  {
    StartupFits(bitrate);
    StartInv(bitrate);
    if M >= MAX_BUFFERED - StartupBytes(bitrate) + 2 {
      var n := MAX_BUFFERED - M + 1;
      TrickleFills(Start(bitrate), n);
      assert BuffersAtMost(Trickle(n), M);
      assert Deadlocked(Exec(Start(bitrate), Trickle(n)), M);
    }
    forall run, size: nat | size <= M && BuffersAtMost(run, M) && Deadlocked(Exec(Start(bitrate), run), size)
      ensures M >= MAX_BUFFERED - StartupBytes(bitrate) + 2
    {
      StartupIsFixed(Start(bitrate), run);
    }
  }

  // ----- What is accepted ----------------------------------------------------------------------

  // The buffers a run brings in: each that is not empty and fits in 16 MiB beside what is queued then.
  function BroughtIn(s: State, run: seq<Action>): seq<Byte>
    decreases |run|
  {
    if run == [] then []
    else
      (if run[0].Push? && !s.stopping && 0 < |run[0].bytes| && s.queued + |run[0].bytes| <= 16_777_216
       then run[0].bytes else [])
      + BroughtIn(Apply(s, run[0]), run[1..])
  }

  // MAIN: over every run the accepted bytes are exactly the buffers that fitted, in order and whole.
  lemma {:induction false} AcceptedIsBroughtIn(s: State, run: seq<Action>)
    requires Inv(s)
    ensures Exec(s, run).accepted == s.accepted + BroughtIn(s, run)
    decreases |run|
  {
    if run == [] {
      assert s.accepted + [] == s.accepted;
    } else {
      StepKeepsInv(s, run[0]);
      AcceptedIsBroughtIn(Apply(s, run[0]), run[1..]);
      StepBringsIn(s, run[0]);
      var first := BroughtIn(s, [run[0]]);
      assert [run[0]][1..] == [];
      Associate(s.accepted, first, BroughtIn(Apply(s, run[0]), run[1..]));
    }
  }

  lemma StepBringsIn(s: State, a: Action)
    requires Inv(s)
    ensures Apply(s, a).accepted == s.accepted + BroughtIn(s, [a])
  {
    assert [a][1..] == [] && BroughtIn(Apply(s, a), []) == [];
    if a.Push? { PushEnabledExactly(s, a.bytes); }
    assert s.accepted + [] == s.accepted;
    if a.Push? { assert a.bytes + [] == a.bytes; }
  }

  lemma PushEnabledExactly(s: State, bytes: seq<Byte>)
    requires Inv(s)
    ensures Enabled(s, Push(bytes)) <==> !s.stopping && 0 < |bytes| && s.queued + |bytes| <= 16_777_216
  {
  }

  // ----- Stopping ----------------------------------------------------------------------------------

  // The steps that take the sender on, out of its startup wait as well.
  predicate TakesOn(a: Action) { SenderStep(a) || a.Wake? }

  function StepsOn(s: State, run: seq<Action>): nat
    decreases |run|
  {
    if run == [] then 0
    else (if Enabled(s, run[0]) && TakesOn(run[0]) then 1 else 0) + StepsOn(Apply(s, run[0]), run[1..])
  }

  // How many of them a sender that is to stop still makes.
  function StopRank(s: State): nat {
    match s.sender
    case Pulling => 4
    case Starved => 3
    case Holding(_) => 2
    case LoopHead => 1
    case Waiting => 1
    case _ => 0
  }

  lemma StopStep(s: State, a: Action)
    requires s.stopping
    ensures var t := Apply(s, a);
            t.stopping && StopRank(t) <= StopRank(s) && (Enabled(s, a) && TakesOn(a) ==> StopRank(t) < StopRank(s))
  {
  }

  // MAIN: once stopped, the sender takes at most four steps in any run, and has left its loop when it
  // has no step to take.
  lemma {:induction false} StopIsObeyed(s: State, run: seq<Action>)
    requires s.stopping
    ensures StepsOn(s, run) <= StopRank(s) <= 4
    ensures StepsOn(s, run) == StopRank(s) ==> LoopLeft(Exec(s, run))
    decreases |run|
  {
    if run != [] {
      StopStep(s, run[0]);
      StopIsObeyed(Apply(s, run[0]), run[1..]);
    }
  }

  // ----- The sender's progress ------------------------------------------------------------------------

  // A step of the sender, whether downstream takes the chunk or refuses it.
  predicate SenderStep(a: Action) {
    a.CheckStop? || a.Pop? || a.FillOrFinish? || a.Emit?
  }

  // Such steps, with upstream ending at any time; the producer is blocked.
  ghost predicate Blocked(run: seq<Action>) {
    forall i :: 0 <= i < |run| ==> SenderStep(run[i]) || run[i].UpstreamEos?
  }

  // No bytes are accepted and nobody stops the bridge.
  ghost predicate Quiet(run: seq<Action>) {
    forall i :: 0 <= i < |run| ==> !run[i].Push? && !run[i].Stop?
  }

  // Past the startup wait and not finished.
  predicate Active(s: State) {
    s.sender.LoopHead? || s.sender.Pulling? || s.sender.Starved? || s.sender.Holding?
  }

  // The sender steps a run takes.
  function SenderSteps(s: State, run: seq<Action>): nat
    decreases |run|
  {
    if run == [] then 0
    else (if Enabled(s, run[0]) && SenderStep(run[0]) then 1 else 0) + SenderSteps(Apply(s, run[0]), run[1..])
  }

  // The step an active sender takes next.
  function NextStep(s: State): Action
    requires Active(s)
  {
    match s.sender
    case LoopHead => CheckStop
    case Pulling => Pop
    case Starved => FillOrFinish
    case Holding(_) => Emit(true)
  }

  // The sender never waits once it is past startup.
  lemma SenderNeverWaits(s: State)
    requires Inv(s) && !s.stopping && Active(s)
    ensures Enabled(s, NextStep(s)) && SenderStep(NextStep(s))
    ensures var t := Apply(s, NextStep(s)); !t.stopping && (Active(t) || t.sender.Ended?)
  {
  }

  // How far the sender is from having sent every whole chunk it has queued.
  function Rank(s: State): nat {
    var chunks := s.queued / CHUNK;
    match s.sender
    case Holding(_) => 4 * chunks + 4
    case LoopHead => 4 * chunks + 3
    case Pulling => 4 * chunks + 2
    case Starved => if chunks == 0 then 1 else 4 * chunks + 5
    case _ => 0
  }

  lemma ChunksLeft(x: nat)
    ensures x < CHUNK <==> x / CHUNK == 0
    ensures x >= CHUNK ==> (x - CHUNK) / CHUNK == x / CHUNK - 1 && (x - CHUNK) % CHUNK == x % CHUNK
    ensures x % CHUNK <= x && (x < CHUNK ==> x % CHUNK == x)
  {
  }

  // A sender step goes down while whole chunks are queued, and after upstream end in any case.
  lemma SenderStepLowersRank(s: State, a: Action)
    requires Inv(s) && !s.stopping && SenderStep(a) && Enabled(s, a)
    requires s.queued >= CHUNK || s.ended
    ensures Rank(Apply(s, a)) < Rank(s)
  {
    ChunksLeft(s.queued);
  }

  lemma BlockedStep(s: State, a: Action)
    requires Inv(s) && !s.stopping && (SenderStep(a) || a.UpstreamEos?)
    ensures var t := Apply(s, a);
            && Inv(t) && !t.stopping && t.queued <= s.queued && t.queued % CHUNK == s.queued % CHUNK
            && (s.ended ==> t.ended)
            && (!(Enabled(s, a) && SenderStep(a)) ==> Rank(t) == Rank(s))
  {
    StepKeepsInv(s, a);
    ChunksLeft(s.queued);
  }

  lemma BlockedRest(run: seq<Action>)
    requires run != [] && Blocked(run)
    ensures (SenderStep(run[0]) || run[0].UpstreamEos?) && Blocked(run[1..])
  {
    assert forall i :: 0 <= i < |run[1..]| ==> run[1..][i] == run[i + 1];
  }

  // ----- Space for a blocked producer ----------------------------------------------------------------

  ghost predicate SpaceWithin(s: State, run: seq<Action>, size: nat) {
    exists n: nat :: n <= |run| && HasSpace(Exec(s, run[..n]), size)
  }

  lemma SpaceLater(s: State, run: seq<Action>, size: nat)
    requires run != []
    ensures SpaceWithin(s, run, size) <==> HasSpace(s, size) || SpaceWithin(Apply(s, run[0]), run[1..], size)
  {
    var t, rest := Apply(s, run[0]), run[1..];
    if SpaceWithin(t, rest, size) {
      var n: nat :| n <= |rest| && HasSpace(Exec(t, rest[..n]), size);
      PrefixStep(s, run, n);
      assert HasSpace(Exec(s, run[..n + 1]), size);
    }
    if HasSpace(s, size) {
      assert run[..0] == [];
      assert HasSpace(Exec(s, run[..0]), size);
    }
    if SpaceWithin(s, run, size) && !HasSpace(s, size) {
      var n: nat :| n <= |run| && HasSpace(Exec(s, run[..n]), size);
      assert run[..0] == [];
      PrefixStep(s, run, n - 1);
    }
  }

  lemma PrefixStep(s: State, run: seq<Action>, n: nat)
    requires n < |run|
    ensures Exec(s, run[..n + 1]) == Exec(Apply(s, run[0]), run[1..][..n])
  {
    assert run[..n + 1][1..] == run[1..][..n];
  }

  // MAIN: every run in which the sender takes more than Rank(s) steps, wherever the sender stands
  // and whenever upstream ends, makes space for a blocked producer, exactly when the part of the
  // queue that is not a whole chunk leaves room for its buffer.
  lemma EveryLongRunMakesSpace(s: State, run: seq<Action>, size: nat)
    requires Inv(s) && !s.stopping && Blocked(run) && SenderSteps(s, run) > Rank(s)
    ensures SpaceWithin(s, run, size) <==> s.queued % CHUNK + size <= MAX_BUFFERED
  {
    if s.queued % CHUNK + size <= MAX_BUFFERED {
      LongRunMakesSpace(s, run, size);
    } else {
      NeverSpace(s, run, size);
    }
  }

  lemma {:induction false} LongRunMakesSpace(s: State, run: seq<Action>, size: nat)
    requires Inv(s) && !s.stopping && Blocked(run) && SenderSteps(s, run) > Rank(s)
    requires s.queued % CHUNK + size <= MAX_BUFFERED
    ensures SpaceWithin(s, run, size)
    decreases |run|
  {
    SpaceLater(s, run, size);
    ChunksLeft(s.queued);
    if !HasSpace(s, size) {
      BlockedRest(run);
      BlockedStep(s, run[0]);
      if Enabled(s, run[0]) && SenderStep(run[0]) { SenderStepLowersRank(s, run[0]); }
      LongRunMakesSpace(Apply(s, run[0]), run[1..], size);
    }
  }

  lemma {:induction false} NeverSpace(s: State, run: seq<Action>, size: nat)
    requires Inv(s) && !s.stopping && Blocked(run)
    requires s.queued % CHUNK + size > MAX_BUFFERED
    ensures !SpaceWithin(s, run, size)
    decreases |run|
  {
    ChunksLeft(s.queued);
    if run == [] {
      assert forall n: nat :: n <= |run| ==> run[..n] == [];
    } else {
      SpaceLater(s, run, size);
      BlockedRest(run);
      BlockedStep(s, run[0]);
      NeverSpace(Apply(s, run[0]), run[1..], size);
    }
  }

  // The next n steps of an active sender, as long as it has one.
  function Onward(s: State, n: nat): (run: seq<Action>)
    decreases n
  {
    if n == 0 || !Active(s) then [] else [NextStep(s)] + Onward(Apply(s, NextStep(s)), n - 1)
  }

  lemma OnwardFirst(s: State, n: nat)
    requires n > 0 && Active(s)
    ensures var a, run := NextStep(s), Onward(s, n);
            var t, rest := Apply(s, a), Onward(Apply(s, a), n - 1);
            && run == [a] + rest && run != [] && run[0] == a && run[1..] == rest
            && Exec(s, run) == Exec(t, rest)
            && SenderSteps(s, run) == (if Enabled(s, a) then 1 else 0) + SenderSteps(t, rest)
            && (Blocked(run) <==> Blocked(rest))
  {
    var a, rest := NextStep(s), Onward(Apply(s, NextStep(s)), n - 1);
    var run := [a] + rest;
    assert run[1..] == rest;
    if Blocked(run) { BlockedRest(run); }
    assert forall i :: 1 <= i < |run| ==> run[i] == rest[i - 1];
  }

  lemma {:induction false} OnwardIsBlocked(s: State, n: nat)
    ensures Blocked(Onward(s, n))
    decreases n
  {
    if n > 0 && Active(s) {
      OnwardFirst(s, n);
      OnwardIsBlocked(Apply(s, NextStep(s)), n - 1);
    }
  }

  // Past startup with nobody stopping: the sender has a step to take or has finished for want of a chunk.
  ghost predicate Goes(s: State) {
    !s.stopping && (Active(s) || (s.sender.Ended? && s.queued < CHUNK))
  }

  lemma OnwardStep(s: State)
    requires Inv(s) && !s.stopping && Active(s)
    ensures Enabled(s, NextStep(s)) && Inv(Apply(s, NextStep(s))) && Goes(Apply(s, NextStep(s)))
  {
    SenderNeverWaits(s);
    StepKeepsInv(s, NextStep(s));
  }

  // The sender takes n steps unless it finishes on the way.
  ghost predicate GoesOn(s: State, n: nat) {
    var run := Onward(s, n);
    Goes(Exec(s, run)) && (SenderSteps(s, run) == n || Exec(s, run).sender.Ended?)
  }

  lemma GoesOnFirst(s: State, n: nat)
    requires n > 0 && Active(s) && Enabled(s, NextStep(s)) && GoesOn(Apply(s, NextStep(s)), n - 1)
    ensures GoesOn(s, n)
  {
    OnwardFirst(s, n);
  }

  lemma GoesOnNowhere(s: State, n: nat)
    requires Goes(s) && (n == 0 || !Active(s))
    ensures GoesOn(s, n)
  {
    assert Onward(s, n) == [];
  }

  lemma {:induction false} OnwardRuns(s: State, n: nat)
    requires Inv(s) && Goes(s)
    ensures GoesOn(s, n)
    decreases n
  {
    if n == 0 || !Active(s) {
      GoesOnNowhere(s, n);
    } else {
      OnwardStep(s);
      OnwardRuns(Apply(s, NextStep(s)), n - 1);
      GoesOnFirst(s, n);
    }
  }

  lemma {:induction false} QuietKeepsRemainder(s: State, run: seq<Action>)
    requires Inv(s) && Quiet(run)
    ensures Exec(s, run).queued % CHUNK == s.queued % CHUNK
    decreases |run|
  {
    if run != [] {
      assert !run[0].Push?;
      StepKeepsInv(s, run[0]);
      StepKeepsRemainder(s, run[0]);
      assert forall i :: 0 <= i < |run[1..]| ==> run[1..][i] == run[i + 1];
      QuietKeepsRemainder(Apply(s, run[0]), run[1..]);
    }
  }

  lemma StepKeepsRemainder(s: State, a: Action)
    requires Inv(s) && !a.Push?
    ensures Apply(s, a).queued % CHUNK == s.queued % CHUNK
  {
    ChunksLeft(s.queued);
  }

  // A corollary: from every active state some run makes space with no help from the environment,
  // and without that condition none does, whatever happens downstream.
  lemma SpaceExactlyBesideTheRemainder(s: State, size: nat)
    requires Inv(s) && !s.stopping && Active(s)
    ensures (exists run :: Quiet(run) && HasSpace(Exec(s, run), size)) <==> s.queued % CHUNK + size <= MAX_BUFFERED
  {
    forall run | Quiet(run) && HasSpace(Exec(s, run), size)
      ensures s.queued % CHUNK + size <= MAX_BUFFERED
    {
      QuietKeepsRemainder(s, run);
      ChunksLeft(Exec(s, run).queued);
    }
    if s.queued % CHUNK + size <= MAX_BUFFERED {
      var run := OnwardMakesSpace(s, size);
    }
  }

  lemma OnwardMakesSpace(s: State, size: nat) returns (run: seq<Action>)
    requires Inv(s) && !s.stopping && Active(s) && s.queued % CHUNK + size <= MAX_BUFFERED
    ensures Quiet(run) && HasSpace(Exec(s, run), size)
  {
    var steps := Rank(s) + 1;
    var onward := Onward(s, steps);
    OnwardIsBlocked(s, steps);
    OnwardRuns(s, steps);
    BlockedIsQuiet(onward, |onward|);
    assert onward[..|onward|] == onward;
    if SenderSteps(s, onward) > Rank(s) {
      LongRunMakesSpace(s, onward, size);
      var n: nat :| n <= |onward| && HasSpace(Exec(s, onward[..n]), size);
      BlockedIsQuiet(onward, n);
      run := onward[..n];
    } else {
      QuietKeepsRemainder(s, onward);
      ChunksLeft(Exec(s, onward).queued);
      run := onward;
    }
  }

  lemma BlockedIsQuiet(run: seq<Action>, n: nat)
    requires Blocked(run) && n <= |run|
    ensures Quiet(run[..n])
  {
    assert forall i :: 0 <= i < n ==> run[..n][i] == run[i];
  }

  // Downstream refused a chunk, upstream ended or somebody stopped the bridge: the loop has been left.
  predicate LoopLeft(s: State) {
    s.sender.Refused? || s.sender.Ended? || s.sender.Stopped?
  }

  // From then on nothing is taken from the queue, whatever the producer and everybody else do.
  lemma {:induction false} LoopLeftNeverMakesSpace(s: State, run: seq<Action>)
    requires LoopLeft(s)
    ensures LoopLeft(Exec(s, run)) && Exec(s, run).queued >= s.queued
    decreases |run|
  {
    if run != [] { LoopLeftNeverMakesSpace(Apply(s, run[0]), run[1..]); }
  }

  // The step leaves the loop: a refused chunk, the stop flag seen, less than a chunk left behind the end of
  // upstream, or a startup wait that ends without a chunk.
  predicate Leaves(s: State, a: Action) {
    match a
    case Emit(ok) => !ok && s.sender.Holding?
    case CheckStop => s.stopping && s.sender.LoopHead?
    case FillOrFinish => s.ended && s.queued < 1316 && s.sender.Starved?
    case Wake => s.stopping && s.sender.Waiting?
    case _ => false
  }

  ghost predicate SomeLeaves(s: State, run: seq<Action>)
    decreases |run|
  {
    run != [] && (Leaves(s, run[0]) || SomeLeaves(Apply(s, run[0]), run[1..]))
  }

  // MAIN: over every run the loop has been left exactly when some step of it left it.
  lemma {:induction false} LoopLeftExactly(s: State, run: seq<Action>)
    requires Inv(s) && s.startup >= 1316
    ensures LoopLeft(Exec(s, run)) <==> LoopLeft(s) || SomeLeaves(s, run)
    decreases |run|
  {
    if run != [] {
      StepKeepsInv(s, run[0]);
      StepLeavesExactly(s, run[0]);
      LoopLeftExactly(Apply(s, run[0]), run[1..]);
    }
  }

  lemma StepLeavesExactly(s: State, a: Action)
    requires Inv(s) && s.startup >= 1316
    ensures LoopLeft(Apply(s, a)) <==> LoopLeft(s) || Leaves(s, a)
    ensures Apply(s, a).startup == s.startup
  {
  }

  // Over every run the flags are set exactly by their signals.
  lemma {:induction false} SignalsAreSeen(s: State, run: seq<Action>)
    requires Inv(s)
    ensures Exec(s, run).ended <==> s.ended || UpstreamEos in run
    ensures Exec(s, run).stopping <==> s.stopping || Stop in run
    decreases |run|
  {
    if run != [] {
      StepKeepsInv(s, run[0]);
      StepSeesSignal(s, run[0]);
      assert run == [run[0]] + run[1..];
      SignalsAreSeen(Apply(s, run[0]), run[1..]);
    }
  }

  lemma StepSeesSignal(s: State, a: Action)
    requires Inv(s)
    ensures Apply(s, a).ended <==> s.ended || a == UpstreamEos
    ensures Apply(s, a).stopping <==> s.stopping || a == Stop
  {
  }

  // MAIN: past startup, with nobody having stopped the bridge, a blocked producer can get space exactly
  // when it has it already, or when the sender has not left its loop and the buffer fits beside the
  // incomplete chunk. A refused chunk leaves the loop without waking or failing the producer.
  lemma SpaceExactlyWhileActive(s: State, size: nat)
    requires Inv(s) && !s.stopping && !s.sender.Waiting?
    ensures (exists run :: Quiet(run) && HasSpace(Exec(s, run), size))
       <==> HasSpace(s, size) || (Active(s) && s.queued % CHUNK + size <= MAX_BUFFERED)
  {
    if Active(s) {
      SpaceExactlyBesideTheRemainder(s, size);
      ChunksLeft(s.queued);
    } else {
      forall run | Quiet(run) && HasSpace(Exec(s, run), size) ensures HasSpace(s, size) {
        LoopLeftNeverMakesSpace(s, run);
      }
      if HasSpace(s, size) { assert Quiet([]) && HasSpace(Exec(s, []), size); }
    }
  }

  // MAIN: for buffers too small for the startup deadlock that is: exactly while the sender has not left
  // its loop. Then every run in which it takes more than Rank(s) steps makes the space.
  lemma ModestBuffersGetSpaceWhileActive(s: State, bitrate: nat, size: nat)
    requires Inv(s) && !s.stopping && !s.sender.Waiting? && !HasSpace(s, size)
    requires size <= MAX_BUFFERED - StartupBytes(bitrate) + 1
    ensures (exists run :: Quiet(run) && HasSpace(Exec(s, run), size)) <==> Active(s)
    ensures forall run :: Blocked(run) && SenderSteps(s, run) > Rank(s) ==> SpaceWithin(s, run, size)
  {
    StartupFits(bitrate);
    ChunksLeft(s.queued);
    SpaceExactlyWhileActive(s, size);
    forall run | Blocked(run) && SenderSteps(s, run) > Rank(s) ensures SpaceWithin(s, run, size) {
      LongRunMakesSpace(s, run, size);
    }
  }

  // MAIN: every run of the sender past startup that is long enough makes space for such a buffer,
  // also if a chunk is refused on the way; a sender that was refused one takes no further steps.
  lemma ModestBuffersAlwaysGetSpace(s: State, bitrate: nat, size: nat, run: seq<Action>)
    requires Inv(s) && !s.stopping && Blocked(run) && SenderSteps(s, run) > Rank(s)
    requires size <= MAX_BUFFERED - StartupBytes(bitrate) + 1
    ensures SpaceWithin(s, run, size)
  {
    StartupFits(bitrate);
    LongRunMakesSpace(s, run, size);
  }

  // ----- After upstream has ended ---------------------------------------------------------------------

  // MAIN: once upstream has ended, every run in which an active sender takes Rank(s) steps ends it;
  // it never takes more, and a refused chunk only makes them fewer.
  lemma {:induction false} EndedAfterFinitelyManySteps(s: State, run: seq<Action>)
    requires Inv(s) && !s.stopping && s.ended && (Active(s) || s.sender.Ended? || s.sender.Refused?) && Blocked(run)
    ensures SenderSteps(s, run) <= Rank(s)
    ensures !s.sender.Refused? && SenderSteps(s, run) == Rank(s) ==> Exec(s, run).sender.Ended?
    decreases |run|
  {
    ChunksLeft(s.queued);
    if run != [] {
      var a := run[0];
      BlockedRest(run);
      BlockedStep(s, a);
      if Enabled(s, a) && SenderStep(a) { SenderStepLowersRank(s, a); }
      EndedAfterFinitelyManySteps(Apply(s, a), run[1..]);
    }
  }

  lemma {:induction false} WaitsForever(s: State, run: seq<Action>)
    requires s.sender.Waiting? && !s.stopping && s.queued < CHUNK <= s.startup && Quiet(run)
    ensures Exec(s, run).sender.Waiting?
    decreases |run|
  {
    if run != [] {
      assert !run[0].Push? && !run[0].Stop?;
      assert forall i :: 0 <= i < |run[1..]| ==> run[1..][i] == run[i + 1];
      WaitsForever(Apply(s, run[0]), run[1..]);
    }
  }

  // MAIN: upstream ends while the sender still waits for the startup reservoir: the sender can
  // finish exactly when a whole chunk is queued. With less it waits in every run until it is stopped.
  lemma StartupWaitEndsExactlyWithAChunk(bitrate: nat, before: seq<Action>)
    requires var s := Exec(Start(bitrate), before); s.sender.Waiting? && s.ended && !s.stopping
    ensures var s := Exec(Start(bitrate), before);
            && ((exists run :: Quiet(run) && Exec(s, run).sender.Ended?) <==> s.queued >= CHUNK)
            && (s.queued < CHUNK ==> forall run :: Quiet(run) ==> Exec(s, run).sender.Waiting?)
  {
    var s := Exec(Start(bitrate), before);
    StartInv(bitrate);
    RunKeepsInv(Start(bitrate), before);
    StartupIsFixed(Start(bitrate), before);
    StartupFits(bitrate);
    if s.queued < CHUNK {
      forall run | Quiet(run) ensures Exec(s, run).sender.Waiting? { WaitsForever(s, run); }
    } else {
      var run := WakesAndEnds(s);
    }
  }

  lemma WakesAndEnds(s: State) returns (run: seq<Action>)
    requires Inv(s) && s.sender.Waiting? && s.ended && !s.stopping && s.queued >= CHUNK
    ensures Quiet(run) && Exec(s, run).sender.Ended?
  {
    var t := Apply(s, Wake);
    StepKeepsInv(s, Wake);
    var onward := Onward(t, Rank(t));
    OnwardIsBlocked(t, Rank(t));
    OnwardRuns(t, Rank(t));
    EndedAfterFinitelyManySteps(t, onward);
    run := [Wake] + onward;
    assert run[1..] == onward && run[0] == Wake;
    assert onward[..|onward|] == onward;
    BlockedIsQuiet(onward, |onward|);
    assert forall i :: 1 <= i < |run| ==> run[i] == onward[i - 1];
  }

  // ----- The bridge object ----------------------------------------------------------------------------

  datatype Flow = Ok | Error | Flushing | MustWait

  class ReservoirBridge {
    const startup: nat
    var buffers: seq<seq<Byte>>
    var frontOffset: nat
    var queued: nat
    var stopping: bool
    var ended: bool
    var sender: Sender
    var continuity: nat
    ghost var accepted: seq<Byte>
    ghost var sent: seq<Chunk>

    ghost function View(): State
      reads this
    {
      State(buffers, frontOffset, queued, stopping, ended, startup, sender, continuity, accepted, sent)
    }

    constructor (bitrate: nat)
      ensures View() == Start(bitrate)
    {
      startup := StartupBytes(bitrate);
      buffers, frontOffset, queued, stopping, ended := [], 0, 0, false, false;
      sender, continuity, accepted, sent := Waiting, 0, [], [];
    }

    // A producer call; MustWait when its wait for space has to go on.
    method PushBuffer(bytes: seq<Byte>) returns (flow: Flow)
      requires Inv(View())
      modifies this
      ensures View() == (if flow == Ok && bytes != [] then Apply(old(View()), Push(bytes)) else old(View()))
      ensures flow == (if bytes == [] then Ok
                       else if |bytes| > MAX_BUFFERED then Error
                       else if old(stopping) then Flushing
                       else if HasSpace(old(View()), |bytes|) then Ok else MustWait)
    {
      if |bytes| == 0 { return Ok; }
      if |bytes| > MAX_BUFFERED { return Error; }
      if !(stopping || queued + |bytes| <= MAX_BUFFERED) { return MustWait; }
      if stopping { return Flushing; }
      queued := queued + |bytes|;
      buffers := buffers + [bytes];
      accepted := accepted + bytes;
      flow := Ok;
    }

    method PopChunk(chunk: array<Byte>) returns (ok: bool)
      requires Inv(View()) && Enabled(View(), Pop) && chunk.Length == CHUNK
      modifies this, chunk
      ensures View() == Apply(old(View()), Pop)
      ensures ok <==> sender.Holding?
      ensures ok ==> chunk[..] == sender.chunk.bytes
    {
      if queued < CHUNK {
        sender := Starved;
        return false;
      }
      CopyChunk(chunk);
      sender := Holding(Chunk(chunk[..], true));
      ok := true;
    }

    // The copy loop: fills the chunk from the front of the queue.
    method CopyChunk(chunk: array<Byte>)
      requires WellFormed(buffers, frontOffset) && chunk.Length == CHUNK
      requires queued == |Contents(buffers, frontOffset)| >= CHUNK
      modifies this`buffers, this`frontOffset, this`queued, chunk
      ensures chunk[..] == old(Contents(buffers, frontOffset))[..CHUNK]
      ensures (buffers, frontOffset) == DropBytes(old(buffers), old(frontOffset), CHUNK)
      ensures queued == old(queued) - CHUNK
    {
      var written: nat := 0;
      ghost var contents := Contents(buffers, frontOffset);
      while written < CHUNK && buffers != []
        invariant 0 <= written <= CHUNK && queued == old(queued) - written
        invariant WellFormed(buffers, frontOffset)
        invariant DropBytes(old(buffers), old(frontOffset), CHUNK) == DropBytes(buffers, frontOffset, CHUNK - written)
        invariant Contents(buffers, frontOffset) == contents[written..]
        invariant chunk[..written] == contents[..written]
        decreases CHUNK - written
      {
        ghost var at := written;
        var copyBytes := TakeFront(chunk, written);
        SliceOn(contents, at, copyBytes);
        assert chunk[..at + copyBytes] == contents[..at + copyBytes];
        assert Contents(buffers, frontOffset) == contents[at + copyBytes..];
        written := written + copyBytes;
        queued := queued - copyBytes;
      }
      assert chunk[..] == chunk[..CHUNK];
    }

    // Copies as much of the front buffer as fits behind the bytes already written.
    method TakeFront(chunk: array<Byte>, written: nat) returns (copyBytes: nat)
      requires WellFormed(buffers, frontOffset) && buffers != [] && written < CHUNK == chunk.Length
      modifies this`buffers, this`frontOffset, chunk
      ensures 0 < copyBytes <= CHUNK - written
      ensures WellFormed(buffers, frontOffset)
      ensures copyBytes <= |old(Contents(buffers, frontOffset))|
      ensures chunk[..written + copyBytes] == old(chunk[..written]) + old(Contents(buffers, frontOffset))[..copyBytes]
      ensures Contents(buffers, frontOffset) == old(Contents(buffers, frontOffset))[copyBytes..]
      ensures DropBytes(old(buffers), old(frontOffset), CHUNK - written)
           == DropBytes(buffers, frontOffset, CHUNK - written - copyBytes)
    {
      var front := buffers[0];
      var available := |front| - frontOffset;
      copyBytes := if CHUNK - written < available then CHUNK - written else available;
      forall k | 0 <= k < copyBytes { chunk[written + k] := front[frontOffset + k]; }
      ghost var contents := Contents(buffers, frontOffset);
      assert contents[..copyBytes] == front[frontOffset..frontOffset + copyBytes];
      if copyBytes == available {
        ContentsFromZero(buffers[1..]);
        buffers, frontOffset := buffers[1..], 0;
      } else {
        frontOffset := frontOffset + copyBytes;
      }
    }

    method WaitForStartup() returns (go: bool)
      requires Inv(View()) && Enabled(View(), Wake)
      modifies this`sender
      ensures View() == Apply(old(View()), Wake) && (go <==> sender.LoopHead?)
    {
      go := !stopping && queued >= CHUNK;
      sender := if go then LoopHead else Stopped;
    }

    // The branch behind a failed pop: finish, or hold seven NULL packets.
    method FillOrEnd(chunk: array<Byte>) returns (finished: bool)
      requires Enabled(View(), FillOrFinish) && chunk.Length == CHUNK && continuity < 16
      modifies this`sender, this`continuity, chunk
      ensures View() == Apply(old(View()), FillOrFinish)
      ensures finished <==> sender.Ended?
      ensures !finished ==> chunk[..] == sender.chunk.bytes
    {
      finished := ended && queued < CHUNK;
      if finished {
        sender := Ended;
        assert View() == old(View()).(sender := Ended);
      } else {
        continuity := FillNullChunk(chunk, continuity);
        sender := Holding(Chunk(chunk[..], false));
        assert View() == old(View()).(sender := sender, continuity := continuity);
      }
    }
  }
}
