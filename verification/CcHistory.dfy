// The continuity counters read off a stream's history, in packet bytes and without an automaton.
module CcHistory {
  // What each packet of a PID is compared with, and what signalled discontinuities and lone fields do.
  import opened Helpers
  import opened Ts
  import opened CcTrace

  // ----- Packet bytes ----------------------------------------------------------------------

  // The packet carries a payload, alone or behind an adaptation field.
  predicate Carries(p: seq<Byte>)
    requires IsPacket(p)
  {
    p[3] / 16 % 2 == 1
  }

  // Neither a payload nor an adaptation field.
  predicate Reserved(p: seq<Byte>)
    requires IsPacket(p)
  {
    p[3] / 16 % 4 == 0
  }

  // An adaptation field with its discontinuity indicator set.
  predicate Signals(p: seq<Byte>)
    requires IsPacket(p)
  {
    p[3] / 32 % 2 == 1 && 1 <= p[4] <= 183 && p[5] >= 128
  }

  function Counter(p: seq<Byte>): nat
    requires IsPacket(p)
  {
    p[3] % 16
  }

  predicate AllPackets(packets: seq<seq<Byte>>) {
    forall i :: 0 <= i < |packets| ==> IsPacket(packets[i])
  }

  // ----- What a packet is compared with -------------------------------------------------------

  // The last payload packet of a PID, unless a reserved packet or a lone adaptation field that signals a
  // discontinuity came behind it.
  function Anchor(own: seq<seq<Byte>>): (a: Option<seq<Byte>>)
    requires AllPackets(own)
    ensures a.Some? ==> IsPacket(a.value)
    decreases |own|
  {
    if own == [] then None
    else
      var front, last := own[..|own| - 1], own[|own| - 1];
      if Carries(last) then Some(last)
      else if Reserved(last) || Signals(last) then None
      else Anchor(front)
  }

  predicate Repeats(own: seq<seq<Byte>>, p: seq<Byte>, hash: seq<Byte> -> nat)
    requires AllPackets(own) && IsPacket(p)
  {
    Carries(p) && !Signals(p) && Anchor(own).Some?
    && Counter(p) == Counter(Anchor(own).value) && hash(p) == hash(Anchor(own).value)
  }

  predicate LoneError(own: seq<seq<Byte>>, p: seq<Byte>)
    requires AllPackets(own) && IsPacket(p)
  {
    !Carries(p) && !Reserved(p) && !Signals(p) && Anchor(own).Some? && Counter(p) != Counter(Anchor(own).value)
  }

  predicate PayloadError(own: seq<seq<Byte>>, p: seq<Byte>, hash: seq<Byte> -> nat)
    requires AllPackets(own) && IsPacket(p)
  {
    Carries(p) && !Signals(p) && Anchor(own).Some? && !Repeats(own, p, hash)
    && Counter(p) != (Counter(Anchor(own).value) + 1) % 16
  }

  // The automaton remembers exactly the anchor.
  ghost predicate Remembers(s: PidState, own: seq<seq<Byte>>, hash: seq<Byte> -> nat)
    requires AllPackets(own)
  {
    && (s.valid <==> Anchor(own).Some?)
    && (s.valid ==> s.hashValid && s.lastCc == Counter(Anchor(own).value) && s.hash == hash(Anchor(own).value))
  }

  lemma BytesAgree(p: seq<Byte>)
    requires IsPacket(p)
    ensures Carries(p) <==> Afc(p) == 1 || Afc(p) == 3
    ensures Reserved(p) <==> Afc(p) == 0
    ensures Signals(p) <==> Discontinuity(p)
    ensures Counter(p) == Cc(p)
  {
  }

  lemma OneMore(s: PidState, own: seq<seq<Byte>>, p: seq<Byte>, hash: seq<Byte> -> nat)
    requires AllPackets(own) && IsPacket(p) && Remembers(s, own, hash)
    ensures Remembers(Next(s, p, hash), own + [p], hash)
    ensures Next(s, p, hash).errors
         == s.errors + if LoneError(own, p) || PayloadError(own, p, hash) then 1 else 0
    ensures Next(s, p, hash).duplicates == s.duplicates + if Repeats(own, p, hash) then 1 else 0
  {
    BytesAgree(p);
    assert (own + [p])[..|own|] == own;
  }

  lemma {:induction false} HistoryIsRemembered(own: seq<seq<Byte>>, hash: seq<Byte> -> nat)
    requires AllPackets(own)
    ensures Remembers(NextAll(UNSEEN, own, hash), own, hash)
    decreases |own|
  {
    if own != [] {
      var front, last := own[..|own| - 1], own[|own| - 1];
      assert own == front + [last];
      HistoryIsRemembered(front, hash);
      OneMore(NextAll(UNSEEN, front, hash), front, last, hash);
    }
  }

  // ----- All counters -----------------------------------------------------------------------------

  // The counters of a stream, each as the number of packets it is about.
  function Tally(packets: seq<seq<Byte>>, hash: seq<Byte> -> nat): Counters
    requires AllPackets(packets)
    decreases |packets|
  {
    if packets == [] then ZERO
    else
      var front, p := packets[..|packets| - 1], packets[|packets| - 1];
      WithPacket(Tally(front, hash), OfPid(front, (p[1] as int) % 32 * 256 + p[2] as int), p, hash)
  }

  function One(b: bool): nat { if b then 1 else 0 }

  // One packet more, behind the packets of its PID.
  function WithPacket(c: Counters, own: seq<seq<Byte>>, p: seq<Byte>, hash: seq<Byte> -> nat): Counters
    requires AllPackets(own) && IsPacket(p)
  {
    var sync := p[0] == 0x47;
    var traced := sync && !(p[1] % 32 == 31 && p[2] == 255);
    var lone := traced && !Carries(p) && !Reserved(p);
    Counters(
      c.packets + One(sync), c.tei + One(sync && p[1] >= 128), c.badSync + One(!sync),
      c.badAfc + One(traced && Reserved(p)), c.discontinuities + One(traced && Signals(p)),
      c.adaptationOnly + One(lone), c.adaptationOnlyErrors + One(traced && LoneError(own, p)),
      c.duplicates + One(traced && Repeats(own, p, hash)),
      c.errors + One(traced && (LoneError(own, p) || PayloadError(own, p, hash))))
  }

  lemma CountIsWithPacket(c: Counters, s: PidState, own: seq<seq<Byte>>, p: seq<Byte>, hash: seq<Byte> -> nat)
    requires AllPackets(own) && IsPacket(p) && (Traced(p) ==> Remembers(s, own, hash))
    ensures Count(c, s, p, hash) == WithPacket(c, own, p, hash)
  {
    BytesAgree(p);
  }

  lemma InspectIsWithPacket(t: Trace, front: seq<seq<Byte>>, p: seq<Byte>, hash: seq<Byte> -> nat)
    requires AllPackets(front) && IsPacket(p) && t == InspectAll(Start(), front, hash)
    ensures Inspect(t, p, hash).counters == WithPacket(t.counters, OfPid(front, Pid(p)), p, hash)
  {
    var own := OfPid(front, Pid(p));
    if Traced(p) {
      PidsAreIndependent(Start(), front, hash, Pid(p));
      HistoryIsRemembered(own, hash);
    }
    CountIsWithPacket(t.counters, t.pids[Pid(p)], own, p, hash);
  }

  // MAIN: every counter of the tracer is the number of packets of the stream it names, whatever PIDs are
  // interleaved: errors and duplicates are decided by the history of the packet's own PID.
  lemma {:induction false} CountersAreTheTally(packets: seq<seq<Byte>>, hash: seq<Byte> -> nat)
    requires AllPackets(packets)
    ensures InspectAll(Start(), packets, hash).counters == Tally(packets, hash)
    decreases |packets|
  {
    if packets != [] {
      var front, p := packets[..|packets| - 1], packets[|packets| - 1];
      CountersAreTheTally(front, hash);
      InspectIsWithPacket(InspectAll(Start(), front, hash), front, p, hash);
    }
  }

  // ----- Signalled discontinuities and lone adaptation fields --------------------------------------

  // Payload packets without a signal whose counters go on from c.
  ghost predicate GoesOn(c: nat, run: seq<seq<Byte>>) {
    forall i :: 0 <= i < |run| ==>
      IsPacket(run[i]) && Carries(run[i]) && !Signals(run[i]) && Counter(run[i]) == (c + i + 1) % 16
  }

  lemma {:induction false} GoesOnWithoutError(m: PidState, c: nat, run: seq<seq<Byte>>, hash: seq<Byte> -> nat)
    requires m.valid && m.lastCc == c % 16 && GoesOn(c, run)
    ensures var u := NextAll(m, run, hash);
            u.errors == m.errors && u.duplicates == m.duplicates && u.valid && u.lastCc == (c + |run|) % 16
    decreases |run|
  {
    if run != [] {
      var n := |run| - 1;
      GoesOnWithoutError(m, c, run[..n], hash);
      BytesAgree(run[n]);
      NextModulo(c, n + 1, n);
      NotSame(c + n);
    }
  }

  lemma NotSame(x: nat)
    ensures x % 16 != (x + 1) % 16
  {
  }

  // Two streams that differ in one PID only.
  ghost predicate SameButFor(all: seq<seq<Byte>>, other: seq<seq<Byte>>, pid: nat) {
    && AllPackets(all) && AllPackets(other) && pid < PIDS && pid != NULL_PID
    && forall r :: 0 <= r < PIDS && r != pid && r != NULL_PID ==> OfPid(all, r) == OfPid(other, r)
  }

  // The totals differ by what that PID's errors and duplicates differ by.
  lemma TotalsDiffer(all: seq<seq<Byte>>, other: seq<seq<Byte>>, pid: nat, d: nat, hash: seq<Byte> -> nat)
    requires SameButFor(all, other, pid)
    requires NextAll(UNSEEN, OfPid(all, pid), hash).errors == NextAll(UNSEEN, OfPid(other, pid), hash).errors + d
    ensures InspectAll(Start(), all, hash).counters.errors == InspectAll(Start(), other, hash).counters.errors + d
  {
    var t, u := InspectAll(Start(), other, hash), InspectAll(Start(), all, hash);
    TotalsAreSums(all, hash);
    TotalsAreSums(other, hash);
    forall r | 0 <= r < PIDS
      ensures u.pids[r].errors == t.pids[r].errors + (if r == pid then d else 0)
    {
      if r == NULL_PID {
        NullPidUntouched(all, hash);
        NullPidUntouched(other, hash);
      } else {
        PidsAreIndependent(Start(), all, hash, r);
        PidsAreIndependent(Start(), other, hash, r);
      }
    }
    SumsDiffer(t.pids, u.pids, pid, d);
  }

  // A payload packet that signals a discontinuity, with any counter, is no error and no repetition, and
  // neither is the run that goes on from it.
  lemma SignalledRestart(s: PidState, p: seq<Byte>, run: seq<seq<Byte>>, hash: seq<Byte> -> nat)
    requires IsPacket(p) && Carries(p) && Signals(p) && GoesOn(Counter(p), run)
    ensures var u := NextAll(Next(s, p, hash), run, hash); u.errors == s.errors && u.duplicates == s.duplicates
  {
    BytesAgree(p);
    GoesOnWithoutError(Next(s, p, hash), Counter(p), run, hash);
  }

  // MAIN: in a whole stream a signalled discontinuity and the run behind it add no error.
  lemma SignalAddsNoError(all: seq<seq<Byte>>, other: seq<seq<Byte>>, pid: nat,
                          a: seq<seq<Byte>>, p: seq<Byte>, run: seq<seq<Byte>>, hash: seq<Byte> -> nat)
    requires SameButFor(all, other, pid) && AllPackets(a)
    requires IsPacket(p) && Carries(p) && Signals(p) && GoesOn(Counter(p), run)
    requires OfPid(all, pid) == a + ([p] + run) && OfPid(other, pid) == a
    ensures InspectAll(Start(), all, hash).counters.errors == InspectAll(Start(), other, hash).counters.errors
  {
    NextAllConcat(UNSEEN, a, [p] + run, hash);
    NextAllFirst(NextAll(UNSEEN, a, hash), p, run, hash);
    SignalledRestart(NextAll(UNSEEN, a, hash), p, run, hash);
    TotalsDiffer(all, other, pid, 0, hash);
  }

  lemma NextAllFirst(s: PidState, p: seq<Byte>, run: seq<seq<Byte>>, hash: seq<Byte> -> nat)
    requires IsPacket(p) && AllPackets(run)
    ensures NextAll(s, [p] + run, hash) == NextAll(Next(s, p, hash), run, hash)
  {
    NextAllConcat(s, [p], run, hash);
    assert [p][..0] == [];
  }

  // The same behind a packet with adaptation field control 0: the payload packet after it may have any counter.
  lemma RestartBehindReserved(s: PidState, q: seq<Byte>, p: seq<Byte>, run: seq<seq<Byte>>, hash: seq<Byte> -> nat)
    requires IsPacket(q) && Reserved(q) && IsPacket(p) && Carries(p) && GoesOn(Counter(p), run)
    ensures var u := NextAll(Next(Next(s, q, hash), p, hash), run, hash);
            u.errors == s.errors && u.duplicates == s.duplicates
  {
    BytesAgree(q);
    BytesAgree(p);
    GoesOnWithoutError(Next(Next(s, q, hash), p, hash), Counter(p), run, hash);
  }

  lemma ReservedAddsNoError(all: seq<seq<Byte>>, other: seq<seq<Byte>>, pid: nat, a: seq<seq<Byte>>,
                            q: seq<Byte>, p: seq<Byte>, run: seq<seq<Byte>>, hash: seq<Byte> -> nat)
    requires SameButFor(all, other, pid) && AllPackets(a)
    requires IsPacket(q) && Reserved(q) && IsPacket(p) && Carries(p) && GoesOn(Counter(p), run)
    requires OfPid(all, pid) == a + ([q] + ([p] + run)) && OfPid(other, pid) == a
    ensures InspectAll(Start(), all, hash).counters.errors == InspectAll(Start(), other, hash).counters.errors
  {
    var s := NextAll(UNSEEN, a, hash);
    NextAllConcat(UNSEEN, a, [q] + ([p] + run), hash);
    NextAllFirst(s, q, [p] + run, hash);
    NextAllFirst(Next(s, q, hash), p, run, hash);
    RestartBehindReserved(s, q, p, run, hash);
    TotalsDiffer(all, other, pid, 0, hash);
  }

  // States that differ in their error count only go on alike.
  lemma {:induction false} ErrorsCarryOver(s: PidState, d: nat, run: seq<seq<Byte>>, hash: seq<Byte> -> nat)
    requires AllPackets(run)
    ensures NextAll(WithErrors(s, d), run, hash) == WithErrors(NextAll(s, run, hash), d)
    decreases |run|
  {
    if run != [] {
      var front, p := run[..|run| - 1], run[|run| - 1];
      ErrorsCarryOver(s, d, front, hash);
      NextCarriesOver(NextAll(s, front, hash), d, p, hash);
    }
  }

  function WithErrors(s: PidState, d: nat): PidState { s.(errors := s.errors + d) }

  lemma NextCarriesOver(s: PidState, d: nat, p: seq<Byte>, hash: seq<Byte> -> nat)
    requires IsPacket(p)
    ensures Next(WithErrors(s, d), p, hash) == WithErrors(Next(s, p, hash), d)
  {
  }

  // MAIN: a lone adaptation field without a signal adds one error exactly when there is a packet to compare
  // it with and the counters differ; whatever comes behind it is judged as if it had not been there.
  lemma LoneFieldAddsAtMostOneError(all: seq<seq<Byte>>, other: seq<seq<Byte>>, pid: nat,
                                    a: seq<seq<Byte>>, p: seq<Byte>, b: seq<seq<Byte>>, hash: seq<Byte> -> nat)
    requires SameButFor(all, other, pid) && AllPackets(a) && AllPackets(b)
    requires IsPacket(p) && !Carries(p) && !Reserved(p) && !Signals(p)
    requires OfPid(all, pid) == a + ([p] + b) && OfPid(other, pid) == a + b
    ensures InspectAll(Start(), all, hash).counters.errors
         == InspectAll(Start(), other, hash).counters.errors
            + if Anchor(a).Some? && Counter(p) != Counter(Anchor(a).value) then 1 else 0
  {
    var s, d := NextAll(UNSEEN, a, hash), if LoneError(a, p) then 1 else 0;
    BytesAgree(p);
    HistoryIsRemembered(a, hash);
    assert Next(s, p, hash) == WithErrors(s, d);
    NextAllConcat(UNSEEN, a, [p] + b, hash);
    NextAllConcat(UNSEEN, a, b, hash);
    NextAllFirst(s, p, b, hash);
    ErrorsCarryOver(s, d, b, hash);
    TotalsDiffer(all, other, pid, d, hash);
  }

  // ----- Finding the packets ---------------------------------------------------------------------

  // Two sync bytes a packet apart, or one less than a packet before the end.
  predicate SyncAt(bytes: seq<Byte>, c: nat) {
    c < |bytes| && bytes[c] == 0x47 && (c + 188 < |bytes| ==> bytes[c + 188] == 0x47)
  }

  lemma {:induction false} AlignmentFromIsFirst(bytes: seq<Byte>, from: nat, c: nat)
    requires from <= c < 188 && SyncAt(bytes, c) && forall i :: from <= i < c ==> !SyncAt(bytes, i)
    ensures AlignmentFrom(bytes, from) == c
    decreases c - from
  {
    if from < c {
      assert !SyncAt(bytes, from);
      AlignmentFromIsFirst(bytes, from + 1, c);
    }
  }

  lemma StreamIsFound(noise: seq<Byte>, stream: seq<Byte>)
    requires |noise| < 188 && Synced(stream) && |stream| >= 188
    requires forall i :: 0 <= i < |noise| ==> !SyncAt(noise + stream, i)
    ensures FindAlignment(noise + stream) == |noise| && (noise + stream)[|noise|..] == stream
  {
    var bytes, n := noise + stream, |noise|;
    assert bytes[n] == stream[0];
    if n + 188 < |bytes| { assert bytes[n + 188] == stream[188] == stream[188..][0]; }
    AlignmentFromIsFirst(bytes, 0, n);
    assert bytes[n..] == stream;
  }

  lemma RestIsKept(stream: seq<Byte>)
    ensures KeepTail(Rest(stream), 0) == Rest(stream)
  {
    RestIsShort(stream);
    assert Rest(stream)[0..] == Rest(stream);
  }

  // MAIN: noise in front of a stream in sync is skipped and counted, wherever it was cut, and the stream is
  // traced as if the noise had not been there, if no earlier byte passes for the start of a packet.
  lemma NoiseIsSkipped(f: Feeder, noise: seq<Byte>, stream: seq<Byte>, data: seq<Byte>, hash: seq<Byte> -> nat)
    requires |f.trace.pids| == PIDS && data != [] && f.remainder + data == noise + stream
    requires |noise| < 188 && (f.remainder == [] && noise != [] ==> noise[0] != 0x47)
    requires Synced(stream) && |stream| >= 188
    requires forall i :: 0 <= i < |noise| ==> !SyncAt(noise + stream, i)
    ensures var u := Feed(f, data, hash);
            && u.trace == InspectAll(f.trace, Packets(stream), hash) && u.remainder == Rest(stream)
            && u.resyncBytes == f.resyncBytes + |noise| && u.misses == f.misses
  {
    StreamIsFound(noise, stream);
    RestIsKept(stream);
    if f.remainder == [] && |data| % PACKET == 0 && data[0] == SYNC {
      FastPathTakesSynced(noise, stream, data);
    } else {
      assert Feed(f, data, hash) == FeedAligned(f, noise + stream, hash);
    }
  }

  lemma FastPathTakesSynced(noise: seq<Byte>, stream: seq<Byte>, data: seq<Byte>)
    requires [] + data == noise + stream && data != [] && data[0] == SYNC && (noise != [] ==> noise[0] != SYNC)
    requires |data| % PACKET == 0
    ensures noise == [] && data == stream && Rest(stream) == []
  {
    assert data == noise + stream;
    FirstByte(noise, stream);
    RestIsShort(stream);
  }

  lemma FirstByte(a: seq<Byte>, b: seq<Byte>)
    ensures a != [] ==> (a + b)[0] == a[0]
  {
  }

  // Without a packet's start nothing is traced, and the last bytes are kept, fewer than four packets of
  // them. Fewer bytes than a packet are kept too, whatever they are.
  lemma UnalignedTailIsKept(f: Feeder, bytes: seq<Byte>, data: seq<Byte>, hash: seq<Byte> -> nat)
    requires |f.trace.pids| == PIDS && data != [] && bytes == f.remainder + data
    requires |bytes| < 188 || ((f.remainder == [] ==> data[0] != 0x47)
                               && forall i :: 0 <= i < 188 ==> !SyncAt(bytes, i))
    ensures var u := Feed(f, data, hash);
            && u.trace == f.trace && u.misses == f.misses + 1 && u.resyncBytes == f.resyncBytes
            && u.remainder == if |bytes| <= 751 then bytes else bytes[|bytes| - 751..]
  {
    if |bytes| >= 188 { NoAlignment(bytes, 0); }
    assert bytes[0..] == bytes;
  }

  // ----- Whole packets ---------------------------------------------------------------------------

  lemma {:induction false} PacketsOfWhole(packets: seq<seq<Byte>>)
    requires AllPackets(packets)
    ensures Packets(Concat(packets)) == packets && Rest(Concat(packets)) == []
    ensures |Concat(packets)| % 188 == 0 && (packets != [] ==> Concat(packets)[..188] == packets[0])
    decreases |packets|
  {
    if packets != [] {
      PacketsOfWhole(packets[1..]);
      var bytes := Concat(packets);
      assert bytes[..188] == packets[0] && bytes[188..] == Concat(packets[1..]);
      assert packets == [packets[0]] + packets[1..];
    }
  }

  // The usual buffer, whole packets behind no remainder, is traced packet by packet, and later packets
  // without a sync byte are counted as that.
  lemma WholeBufferIsTraced(f: Feeder, packets: seq<seq<Byte>>, hash: seq<Byte> -> nat)
    requires |f.trace.pids| == PIDS && f.remainder == []
    requires AllPackets(packets) && packets != [] && packets[0][0] == 0x47
    ensures Feed(f, Concat(packets), hash) == f.(trace := InspectAll(f.trace, packets, hash))
  {
    PacketsOfWhole(packets);
    assert Concat(packets)[0] == Concat(packets)[..188][0];
  }

  lemma {:induction false} WholeIsSynced(packets: seq<seq<Byte>>)
    requires AllPackets(packets) && forall i :: 0 <= i < |packets| ==> packets[i][0] == 0x47
    ensures Synced(Concat(packets))
    decreases |packets|
  {
    if packets != [] {
      WholeIsSynced(packets[1..]);
      assert Concat(packets)[188..] == Concat(packets[1..]) && Concat(packets)[0] == packets[0][0];
    }
  }

  // MAIN: however the bytes of some packets are split into buffers, every counter is that of the packets'
  // history, and nothing is left over.
  lemma PacketsAreCounted(packets: seq<seq<Byte>>, chunks: seq<seq<Byte>>, hash: seq<Byte> -> nat)
    requires AllPackets(packets) && forall i :: 0 <= i < |packets| ==> packets[i][0] == 0x47
    requires Concat(chunks) == Concat(packets)
    ensures var u := FeedAll(Feeder(Start(), [], 0, 0), chunks, hash);
            u.trace.counters == Tally(packets, hash) && u.remainder == []
  {
    WholeIsSynced(packets);
    PacketsOfWhole(packets);
    SyncedStreamCounters(chunks, hash);
    CountersAreTheTally(packets, hash);
  }

  lemma {:induction false} NoAlignment(bytes: seq<Byte>, from: nat)
    requires forall i :: from <= i < |bytes| && i < 188 ==> !SyncAt(bytes, i)
    ensures AlignmentFrom(bytes, from) == |bytes|
    decreases 188 - from
  {
    if from < 188 && from < |bytes| {
      assert !SyncAt(bytes, from);
      NoAlignment(bytes, from + 1);
    }
  }
}
