// Continuity-counter diagnostics: a per-PID automaton over packets and a reassembler
// of packets from arbitrary chunks. The automaton decides for each packet whether it is
// new, a repetition, in sequence or behind a loss; the reassembler looks for sync bytes
// one packet apart.
module CcTrace {
  import opened Helpers
  import opened Ts

  const NULL_PID: nat := 0x1FFF
  const KEPT_TAIL: nat := PACKET * 4 - 1

  // ----- Header fields -----------------------------------------------------------

  function Cc(p: seq<Byte>): (cc: nat)
    requires IsPacket(p)
    ensures cc < 16
  {
    p[3] % 16
  }

  predicate Discontinuity(p: seq<Byte>)
    requires IsPacket(p)
  {
    (Afc(p) == 2 || Afc(p) == 3) && 0 < p[4] <= 183 && p[5] >= 0x80
  }

  // ----- The automaton of one PID ----------------------------------------------------

  datatype PidState = PidState(lastCc: nat, valid: bool, hash: nat, hashValid: bool, errors: nat, duplicates: nat)

  const UNSEEN := PidState(0, false, 0, false, 0, 0)

  datatype Outcome = BadAfc | AdaptationOnly | AdaptationError | Fresh | Duplicate | InSequence | OutOfSequence

  // The state after the discontinuity indicator has been looked at.
  function Reset(s: PidState, p: seq<Byte>): PidState
    requires IsPacket(p)
  {
    if Discontinuity(p) then s.(valid := false, hashValid := false) else s
  }

  function Judge(s: PidState, p: seq<Byte>, hash: seq<Byte> -> nat): Outcome
    requires IsPacket(p)
  {
    var r := Reset(s, p);
    if Afc(p) == 0 then BadAfc
    else if Afc(p) == 2 then (if r.valid && Cc(p) != r.lastCc then AdaptationError else AdaptationOnly)
    else if !r.valid then Fresh
    else if Cc(p) == r.lastCc && r.hashValid && r.hash == hash(p) then Duplicate
    else if Cc(p) == (r.lastCc + 1) % 16 then InSequence
    else OutOfSequence
  }

  function Next(s: PidState, p: seq<Byte>, hash: seq<Byte> -> nat): PidState
    requires IsPacket(p)
  {
    var r := Reset(s, p);
    var taken := r.(lastCc := Cc(p), valid := true, hash := hash(p), hashValid := true);
    match Judge(s, p, hash)
    case BadAfc => s.(valid := false, hashValid := false)
    case AdaptationOnly => r
    case AdaptationError => r.(errors := r.errors + 1)
    case Fresh => taken
    case Duplicate => r.(duplicates := r.duplicates + 1)
    case InSequence => taken
    case OutOfSequence => taken.(errors := r.errors + 1)
  }

  function NextAll(s: PidState, packets: seq<seq<Byte>>, hash: seq<Byte> -> nat): PidState
    requires forall i :: 0 <= i < |packets| ==> IsPacket(packets[i])
    decreases |packets|
  {
    if packets == [] then s
    else Next(NextAll(s, packets[..|packets| - 1], hash), packets[|packets| - 1], hash)
  }

  // ----- All PIDs --------------------------------------------------------------------------

  datatype Counters = Counters(
    packets: nat, tei: nat, badSync: nat, badAfc: nat, discontinuities: nat,
    adaptationOnly: nat, adaptationOnlyErrors: nat, duplicates: nat, errors: nat)

  datatype Trace = Trace(pids: seq<PidState>, counters: Counters)

  const ZERO := Counters(0, 0, 0, 0, 0, 0, 0, 0, 0)

  function Start(): Trace { Trace(seq(PIDS, _ => UNSEEN), ZERO) }

  // The counters of a packet whose PID is traced.
  function CountTraced(c: Counters, s: PidState, p: seq<Byte>, hash: seq<Byte> -> nat): Counters
    requires IsPacket(p)
  {
    if Afc(p) == 0 then c.(badAfc := c.badAfc + 1)
    else
      var c2 := c.(discontinuities := c.discontinuities + (if Discontinuity(p) then 1 else 0));
      match Judge(s, p, hash)
      case AdaptationOnly => c2.(adaptationOnly := c2.adaptationOnly + 1)
      case AdaptationError =>
        c2.(adaptationOnly := c2.adaptationOnly + 1, adaptationOnlyErrors := c2.adaptationOnlyErrors + 1,
            errors := c2.errors + 1)
      case Duplicate => c2.(duplicates := c2.duplicates + 1)
      case OutOfSequence => c2.(errors := c2.errors + 1)
      case _ => c2
  }

  function Count(c: Counters, s: PidState, p: seq<Byte>, hash: seq<Byte> -> nat): Counters
    requires IsPacket(p)
  {
    if p[0] != SYNC then c.(badSync := c.badSync + 1)
    else
      var c1 := c.(packets := c.packets + 1, tei := c.tei + (if Tei(p) then 1 else 0));
      if Pid(p) == NULL_PID then c1 else CountTraced(c1, s, p, hash)
  }

  predicate Traced(p: seq<Byte>)
    requires IsPacket(p)
  {
    p[0] == SYNC && Pid(p) != NULL_PID
  }

  function Inspect(t: Trace, p: seq<Byte>, hash: seq<Byte> -> nat): (t': Trace)
    requires IsPacket(p) && |t.pids| == PIDS
    ensures |t'.pids| == PIDS
  {
    var s := t.pids[Pid(p)];
    Trace(if Traced(p) then t.pids[Pid(p) := Next(s, p, hash)] else t.pids, Count(t.counters, s, p, hash))
  }

  function InspectAll(t: Trace, packets: seq<seq<Byte>>, hash: seq<Byte> -> nat): (t': Trace)
    requires |t.pids| == PIDS && forall i :: 0 <= i < |packets| ==> IsPacket(packets[i])
    ensures |t'.pids| == PIDS
    decreases |packets|
  {
    if packets == [] then t
    else Inspect(InspectAll(t, packets[..|packets| - 1], hash), packets[|packets| - 1], hash)
  }

  // ----- Each PID depends on its own packets only ----------------------------------------------

  function OfPid(packets: seq<seq<Byte>>, pid: nat): (own: seq<seq<Byte>>)
    requires forall i :: 0 <= i < |packets| ==> IsPacket(packets[i])
    ensures forall i :: 0 <= i < |own| ==> IsPacket(own[i]) && own[i][0] == SYNC && Pid(own[i]) == pid
    decreases |packets|
  {
    if packets == [] then []
    else
      var last := packets[|packets| - 1];
      assert IsPacket(last);
      OfPid(packets[..|packets| - 1], pid) + (if last[0] == SYNC && Pid(last) == pid then [last] else [])
  }

  lemma {:induction false} PidsAreIndependent(t: Trace, packets: seq<seq<Byte>>, hash: seq<Byte> -> nat, pid: nat)
    requires |t.pids| == PIDS && pid < PIDS && pid != NULL_PID
    requires forall i :: 0 <= i < |packets| ==> IsPacket(packets[i])
    ensures InspectAll(t, packets, hash).pids[pid] == NextAll(t.pids[pid], OfPid(packets, pid), hash)
    decreases |packets|
  {
    if packets != [] {
      var front, last := packets[..|packets| - 1], packets[|packets| - 1];
      PidsAreIndependent(t, front, hash, pid);
      var own := OfPid(front, pid);
      if last[0] == SYNC && Pid(last) == pid {
        assert (own + [last])[..|own|] == own;
      } else {
        assert own + [] == own;
      }
    }
  }

  // ----- Totals are the sums over the PIDs ----------------------------------------------------------

  function SumErrors(pids: seq<PidState>): nat {
    if pids == [] then 0 else SumErrors(pids[..|pids| - 1]) + pids[|pids| - 1].errors
  }

  function SumDuplicates(pids: seq<PidState>): nat {
    if pids == [] then 0 else SumDuplicates(pids[..|pids| - 1]) + pids[|pids| - 1].duplicates
  }

  lemma {:induction false} SumUpdate(pids: seq<PidState>, k: nat, s: PidState)
    requires k < |pids|
    ensures SumErrors(pids[k := s]) == SumErrors(pids) - pids[k].errors + s.errors
    ensures SumDuplicates(pids[k := s]) == SumDuplicates(pids) - pids[k].duplicates + s.duplicates
    decreases |pids|
  {
    var n := |pids| - 1;
    if k < n {
      SumUpdate(pids[..n], k, s);
      assert pids[k := s][..n] == pids[..n][k := s];
    } else {
      assert pids[k := s][..n] == pids[..n];
    }
  }

  lemma {:induction false} SumOfZeros(pids: seq<PidState>)
    requires forall i :: 0 <= i < |pids| ==> pids[i].errors == 0 && pids[i].duplicates == 0
    ensures SumErrors(pids) == 0 && SumDuplicates(pids) == 0
    decreases |pids|
  {
    if pids != [] { SumOfZeros(pids[..|pids| - 1]); }
  }

  ghost predicate Balanced(t: Trace) {
    t.counters.errors == SumErrors(t.pids) && t.counters.duplicates == SumDuplicates(t.pids)
  }

  lemma {:induction false} TotalsAreSums(packets: seq<seq<Byte>>, hash: seq<Byte> -> nat)
    requires forall i :: 0 <= i < |packets| ==> IsPacket(packets[i])
    ensures Balanced(InspectAll(Start(), packets, hash))
    decreases |packets|
  {
    if packets == [] {
      SumOfZeros(Start().pids);
    } else {
      var front, last := packets[..|packets| - 1], packets[|packets| - 1];
      TotalsAreSums(front, hash);
      var t := InspectAll(Start(), front, hash);
      SumUpdate(t.pids, Pid(last), Next(t.pids[Pid(last)], last, hash));
    }
  }

  // ----- Lost packets ---------------------------------------------------------------------------------

  ghost predicate CleanPacket(p: seq<Byte>) {
    IsPacket(p) && (Afc(p) == 1 || Afc(p) == 3) && !Discontinuity(p)
  }

  // Payload packets of one PID with consecutive counters.
  ghost predicate Clean(run: seq<seq<Byte>>) {
    && (forall i :: 0 <= i < |run| ==> CleanPacket(run[i]))
    && (forall i :: 0 <= i < |run| - 1 ==> Follows(run[i], run[i + 1]))
  }

  ghost predicate Follows(p: seq<Byte>, q: seq<Byte>) {
    IsPacket(p) && IsPacket(q) && Cc(q) == (Cc(p) + 1) % 16
  }

  // The automaton has taken p last.
  ghost predicate At(s: PidState, p: seq<Byte>, hash: seq<Byte> -> nat)
    requires IsPacket(p)
  {
    s.valid && s.hashValid && s.lastCc == Cc(p) && s.hash == hash(p)
  }

  // Whatever came before, after a clean packet the automaton stands at it.
  lemma TakesCleanPacket(s: PidState, p: seq<Byte>, hash: seq<Byte> -> nat)
    requires CleanPacket(p)
    ensures At(Next(s, p, hash), p, hash)
  {
  }

  lemma {:induction false} CleanRunStays(s: PidState, run: seq<seq<Byte>>, hash: seq<Byte> -> nat)
    requires run != [] && Clean(run)
    ensures At(NextAll(s, run, hash), run[|run| - 1], hash)
    ensures NextAll(s, run, hash).errors == Next(s, run[0], hash).errors
    decreases |run|
  {
    var n := |run| - 1;
    TakesCleanPacket(NextAll(s, run[..n], hash), run[n], hash);
    if n > 0 {
      CleanRunStays(s, run[..n], hash);
      assert Follows(run[n - 1], run[n]);
    } else {
      assert run[..0] == [];
    }
  }

  lemma {:induction false} NextAllConcat(s: PidState, a: seq<seq<Byte>>, b: seq<seq<Byte>>, hash: seq<Byte> -> nat)
    requires forall i :: 0 <= i < |a| ==> IsPacket(a[i])
    requires forall i :: 0 <= i < |b| ==> IsPacket(b[i])
    ensures NextAll(s, a + b, hash) == NextAll(NextAll(s, a, hash), b, hash)
    decreases |b|
  {
    if b == [] {
      assert a + b == a;
    } else {
      var front, last := b[..|b| - 1], b[|b| - 1];
      assert a + b == (a + front) + [last] && b == front + [last];
      NextAllConcat(s, a, front, hash);
      NextAllLast(s, a + front, last, hash);
      NextAllLast(NextAll(s, a, hash), front, last, hash);
    }
  }

  lemma NextAllLast(s: PidState, packets: seq<seq<Byte>>, p: seq<Byte>, hash: seq<Byte> -> nat)
    requires IsPacket(p) && forall i :: 0 <= i < |packets| ==> IsPacket(packets[i])
    ensures NextAll(s, packets + [p], hash) == Next(NextAll(s, packets, hash), p, hash)
  {
    assert (packets + [p])[..|packets|] == packets;
  }

  lemma {:induction false} CounterAfter(run: seq<seq<Byte>>, k: nat)
    requires Clean(run) && k < |run|
    ensures Cc(run[k]) == (Cc(run[0]) + k) % 16
  {
    if k > 0 {
      CounterAfter(run, k - 1);
      assert Follows(run[k - 1], run[k]);
      NextModulo(Cc(run[0]), k, k - 1);
    }
  }

  lemma NextModulo(x: nat, k: nat, j: nat)
    requires j <= k
    ensures ((x + j) % 16 + (k - j)) % 16 == (x + k) % 16
  {
  }

  lemma CleanSlice(run: seq<seq<Byte>>, lo: nat, hi: nat)
    requires Clean(run) && lo <= hi <= |run|
    ensures Clean(run[lo..hi])
  {
    var part := run[lo..hi];
    forall i | 0 <= i < |part| - 1 ensures Follows(part[i], part[i + 1]) {
      assert Follows(run[lo + i], run[lo + i + 1]);
    }
  }

  lemma CleanParts(a: seq<seq<Byte>>, gap: seq<seq<Byte>>, b: seq<seq<Byte>>)
    requires Clean(a + gap + b) && a != [] && b != []
    ensures Clean(a) && Clean(gap + b) && Clean(b)
    ensures Follows(a[|a| - 1], (gap + b)[0])
    ensures Cc(b[0]) == (Cc(a[|a| - 1]) + |gap| + 1) % 16
  {
    assert a + gap + b == a + (gap + b);
    CleanHalves(a, gap + b);
    CleanHalves(gap, b);
    CounterBehind(a[|a| - 1], gap + b, |gap|);
    assert (gap + b)[|gap|] == b[0];
  }

  lemma CounterBehind(p: seq<Byte>, run: seq<seq<Byte>>, k: nat)
    requires Clean(run) && k < |run| && Follows(p, run[0])
    ensures Cc(run[k]) == (Cc(p) + k + 1) % 16
  {
    CounterAfter(run, k);
    NextModulo(Cc(p), k + 1, 1);
  }

  lemma CleanHalves(a: seq<seq<Byte>>, b: seq<seq<Byte>>)
    requires Clean(a + b)
    ensures Clean(a) && Clean(b)
    ensures a != [] && b != [] ==> Follows(a[|a| - 1], b[0])
  {
    var run := a + b;
    assert run[0..|a|] == a && run[|a|..|run|] == b;
    CleanSlice(run, 0, |a|);
    CleanSlice(run, |a|, |run|);
    if a != [] && b != [] { assert Follows(run[|a| - 1], run[|a|]); }
  }

  // How many errors it shows when `gap` is lost between p and q.
  function LossErrors(gap: nat, p: seq<Byte>, q: seq<Byte>, hash: seq<Byte> -> nat): nat {
    if gap % 16 == 0 || (gap % 16 == 15 && hash(p) == hash(q)) then 0 else 1
  }

  // Losing the packets `gap` from the middle of a clean run adds exactly one error,
  // unless their number is a multiple of sixteen, or one less and the packet behind
  // them passes for a repetition of the one before.
  lemma LossAddsOneError(s: PidState, a: seq<seq<Byte>>, gap: seq<seq<Byte>>, b: seq<seq<Byte>>, hash: seq<Byte> -> nat)
    requires a != [] && b != [] && Clean(a + gap + b)
    ensures (forall i :: 0 <= i < |a + b| ==> IsPacket((a + b)[i]))
    ensures NextAll(s, a + b, hash).errors
         == NextAll(s, a + gap + b, hash).errors + LossErrors(|gap|, a[|a| - 1], b[0], hash)
  {
    CleanParts(a, gap, b);
    assert forall i :: 0 <= i < |a| ==> CleanPacket(a[i]);
    assert forall i :: 0 <= i < |b| ==> CleanPacket(b[i]);
    assert forall i :: 0 <= i < |gap + b| ==> CleanPacket((gap + b)[i]);
    PacketsBoth(a, b);
    PacketsBoth(a, gap + b);
    assert a + gap + b == a + (gap + b);
    NextAllConcat(s, a, b, hash);
    NextAllConcat(s, a, gap + b, hash);
    LossAfter(NextAll(s, a, hash), s, a, gap, b, hash);
  }

  lemma PacketsBoth(a: seq<seq<Byte>>, b: seq<seq<Byte>>)
    requires (forall i :: 0 <= i < |a| ==> CleanPacket(a[i])) && (forall i :: 0 <= i < |b| ==> CleanPacket(b[i]))
    ensures forall i :: 0 <= i < |a + b| ==> IsPacket((a + b)[i])
  {
    forall i | 0 <= i < |a + b|
      ensures IsPacket((a + b)[i])
    {
      if i < |a| { assert CleanPacket(a[i]); } else { assert CleanPacket(b[i - |a|]); }
    }
  }

  // The two ways on from the state behind a.
  lemma LossAfter(m: PidState, s: PidState, a: seq<seq<Byte>>, gap: seq<seq<Byte>>, b: seq<seq<Byte>>,
                  hash: seq<Byte> -> nat)
    requires a != [] && b != [] && Clean(a) && Clean(b) && Clean(gap + b)
    requires Follows(a[|a| - 1], (gap + b)[0]) && Cc(b[0]) == (Cc(a[|a| - 1]) + |gap| + 1) % 16
    requires m == NextAll(s, a, hash)
    ensures NextAll(m, b, hash).errors == NextAll(m, gap + b, hash).errors + LossErrors(|gap|, a[|a| - 1], b[0], hash)
  {
    var last := a[|a| - 1];
    assert CleanPacket(last) && CleanPacket((gap + b)[0]);
    CleanRunStays(s, a, hash);
    ErrorsBehind(m, last, b, |gap|, hash);
    ErrorsBehind(m, last, gap + b, 0, hash);
  }

  // A clean run that starts k packets behind p.
  lemma ErrorsBehind(m: PidState, p: seq<Byte>, run: seq<seq<Byte>>, k: nat, hash: seq<Byte> -> nat)
    requires CleanPacket(p) && At(m, p, hash) && run != [] && Clean(run) && Cc(run[0]) == (Cc(p) + k + 1) % 16
    ensures NextAll(m, run, hash).errors == m.errors + LossErrors(k, p, run[0], hash)
  {
    assert CleanPacket(run[0]);
    CleanRunStays(m, run, hash);
    ErrorOutOfSequence(m, p, run[0], k, hash);
  }

  lemma ErrorOutOfSequence(m: PidState, p: seq<Byte>, q: seq<Byte>, k: nat, hash: seq<Byte> -> nat)
    requires CleanPacket(p) && CleanPacket(q) && At(m, p, hash)
    requires Cc(q) == (Cc(p) + k + 1) % 16
    ensures Next(m, q, hash).errors == m.errors + LossErrors(k, p, q, hash)
  {
    var c := Cc(p);
    assert Cc(q) == c <==> k % 16 == 15;
    assert Cc(q) == (c + 1) % 16 <==> k % 16 == 0;
  }

  // The same in a whole stream: other PIDs may be interleaved in any way, and the
  // total moves by the same amount.
  lemma LossInAStream(sentAll: seq<seq<Byte>>, received: seq<seq<Byte>>, pid: nat,
                      a: seq<seq<Byte>>, gap: seq<seq<Byte>>, b: seq<seq<Byte>>, hash: seq<Byte> -> nat)
    requires forall i :: 0 <= i < |sentAll| ==> IsPacket(sentAll[i])
    requires forall i :: 0 <= i < |received| ==> IsPacket(received[i])
    requires pid < PIDS && pid != NULL_PID
    requires a != [] && b != [] && Clean(a + gap + b)
    requires OfPid(sentAll, pid) == a + gap + b && OfPid(received, pid) == a + b
    requires forall r :: 0 <= r < PIDS && r != pid && r != NULL_PID ==> OfPid(sentAll, r) == OfPid(received, r)
    ensures InspectAll(Start(), received, hash).counters.errors
         == InspectAll(Start(), sentAll, hash).counters.errors + LossErrors(|gap|, a[|a| - 1], b[0], hash)
  {
    var t, u := InspectAll(Start(), sentAll, hash), InspectAll(Start(), received, hash);
    TotalsAreSums(sentAll, hash);
    TotalsAreSums(received, hash);
    forall r | 0 <= r < PIDS
      ensures u.pids[r].errors == t.pids[r].errors
                + (if r == pid then LossErrors(|gap|, a[|a| - 1], b[0], hash) else 0)
    {
      if r == NULL_PID {
        NullPidUntouched(sentAll, hash);
        NullPidUntouched(received, hash);
      } else {
        PidsAreIndependent(Start(), sentAll, hash, r);
        PidsAreIndependent(Start(), received, hash, r);
        if r == pid { LossAddsOneError(UNSEEN, a, gap, b, hash); }
      }
    }
    SumsDiffer(t.pids, u.pids, pid, LossErrors(|gap|, a[|a| - 1], b[0], hash));
  }

  lemma {:induction false} NullPidUntouched(packets: seq<seq<Byte>>, hash: seq<Byte> -> nat)
    requires forall i :: 0 <= i < |packets| ==> IsPacket(packets[i])
    ensures InspectAll(Start(), packets, hash).pids[NULL_PID] == UNSEEN
    decreases |packets|
  {
    if packets != [] { NullPidUntouched(packets[..|packets| - 1], hash); }
  }

  lemma {:induction false} SumsDiffer(t: seq<PidState>, u: seq<PidState>, k: nat, d: nat)
    requires |t| == |u|
    requires forall r :: 0 <= r < |t| ==> u[r].errors == t[r].errors + (if r == k then d else 0)
    ensures SumErrors(u) == SumErrors(t) + (if k < |t| then d else 0)
    decreases |t|
  {
    if t != [] { SumsDiffer(t[..|t| - 1], u[..|u| - 1], k, d); }
  }

  // ----- Reassembly from chunks ------------------------------------------------------------------------

  datatype Feeder = Feeder(trace: Trace, remainder: seq<Byte>, misses: nat, resyncBytes: nat)

  // Whether an inspection from `c` would start on two sync bytes, or on the last one.
  predicate Aligned(bytes: seq<Byte>, c: nat) {
    c < |bytes| && bytes[c] == SYNC && (c + PACKET >= |bytes| || bytes[c + PACKET] == SYNC)
  }

  // The first aligned offset from c on, below one packet; None is |bytes|.
  function AlignmentFrom(bytes: seq<Byte>, c: nat): (offset: nat)
    decreases PACKET - c
  {
    if c >= PACKET || c >= |bytes| then |bytes|
    else if Aligned(bytes, c) then c
    else AlignmentFrom(bytes, c + 1)
  }

  function FindAlignment(bytes: seq<Byte>): nat {
    if |bytes| < PACKET then |bytes| else AlignmentFrom(bytes, 0)
  }

  function KeepTail(bytes: seq<Byte>, offset: nat): seq<Byte> {
    if offset >= |bytes| then []
    else if |bytes| - offset < KEPT_TAIL then bytes[offset..]
    else bytes[|bytes| - KEPT_TAIL..]
  }

  // The whole packets of a byte string.
  function Packets(bytes: seq<Byte>): (packets: seq<seq<Byte>>)
    ensures forall i :: 0 <= i < |packets| ==> IsPacket(packets[i])
    decreases |bytes|
  {
    if |bytes| < PACKET then [] else [bytes[..PACKET]] + Packets(bytes[PACKET..])
  }

  function Rest(bytes: seq<Byte>): seq<Byte>
    decreases |bytes|
  {
    if |bytes| < PACKET then bytes else Rest(bytes[PACKET..])
  }

  // Bytes that may not start with a packet.
  function FeedAligned(f: Feeder, bytes: seq<Byte>, hash: seq<Byte> -> nat): (f': Feeder)
    requires |f.trace.pids| == PIDS
    ensures |f'.trace.pids| == PIDS
  {
    var offset := FindAlignment(bytes);
    if offset >= |bytes| then f.(misses := f.misses + 1, remainder := KeepTail(bytes, 0))
    else
      f.(trace := InspectAll(f.trace, Packets(bytes[offset..]), hash),
         resyncBytes := f.resyncBytes + offset,
         remainder := KeepTail(Rest(bytes[offset..]), 0))
  }

  function Feed(f: Feeder, data: seq<Byte>, hash: seq<Byte> -> nat): (f': Feeder)
    requires |f.trace.pids| == PIDS
    ensures |f'.trace.pids| == PIDS
  {
    if data == [] then f
    else if f.remainder == [] && |data| % PACKET == 0 && data[0] == SYNC then
      f.(trace := InspectAll(f.trace, Packets(data), hash))
    else FeedAligned(f, f.remainder + data, hash)
  }

  function FeedAll(f: Feeder, chunks: seq<seq<Byte>>, hash: seq<Byte> -> nat): (f': Feeder)
    requires |f.trace.pids| == PIDS
    ensures |f'.trace.pids| == PIDS
    decreases |chunks|
  {
    if chunks == [] then f else FeedAll(Feed(f, chunks[0], hash), chunks[1..], hash)
  }

  // A stream with a sync byte at every packet boundary.
  ghost predicate Synced(bytes: seq<Byte>)
    decreases |bytes|
  {
    bytes == [] || (bytes[0] == SYNC && (|bytes| > PACKET ==> Synced(bytes[PACKET..])))
  }

  lemma {:induction false} PacketsAppend(a: seq<Byte>, b: seq<Byte>)
    ensures Packets(a + b) == Packets(a) + Packets(Rest(a) + b)
    ensures Rest(a + b) == Rest(Rest(a) + b)
    decreases |a|
  {
    if |a| >= PACKET {
      assert (a + b)[..PACKET] == a[..PACKET];
      assert (a + b)[PACKET..] == a[PACKET..] + b;
      PacketsAppend(a[PACKET..], b);
    }
  }

  lemma {:induction false} RestIsShort(bytes: seq<Byte>)
    ensures |Rest(bytes)| == |bytes| % PACKET && |Rest(bytes)| < PACKET
    decreases |bytes|
  {
    if |bytes| >= PACKET {
      RestIsShort(bytes[PACKET..]);
      assert (|bytes| - PACKET) % PACKET == |bytes| % PACKET;
    }
  }

  lemma {:induction false} SyncedSuffix(a: seq<Byte>, b: seq<Byte>)
    requires Synced(a + b)
    ensures Synced(Rest(a) + b)
    decreases |a|
  {
    if |a| >= PACKET {
      assert (a + b)[PACKET..] == a[PACKET..] + b;
      if |a + b| == PACKET {
        assert a[PACKET..] + b == [];
      }
      SyncedSuffix(a[PACKET..], b);
    }
  }

  lemma {:induction false} InspectConcat(t: Trace, a: seq<seq<Byte>>, b: seq<seq<Byte>>, hash: seq<Byte> -> nat)
    requires |t.pids| == PIDS
    requires forall i :: 0 <= i < |a| ==> IsPacket(a[i])
    requires forall i :: 0 <= i < |b| ==> IsPacket(b[i])
    ensures InspectAll(t, a + b, hash) == InspectAll(InspectAll(t, a, hash), b, hash)
    decreases |b|
  {
    if b == [] {
      assert a + b == a;
    } else {
      var front, last := b[..|b| - 1], b[|b| - 1];
      assert a + b == (a + front) + [last] && b == front + [last];
      InspectConcat(t, a, front, hash);
      InspectLast(t, a + front, last, hash);
      InspectLast(InspectAll(t, a, hash), front, last, hash);
    }
  }

  lemma InspectLast(t: Trace, packets: seq<seq<Byte>>, p: seq<Byte>, hash: seq<Byte> -> nat)
    requires |t.pids| == PIDS && IsPacket(p)
    requires forall i :: 0 <= i < |packets| ==> IsPacket(packets[i])
    ensures InspectAll(t, packets + [p], hash) == Inspect(InspectAll(t, packets, hash), p, hash)
  {
    assert (packets + [p])[..|packets|] == packets;
  }

  // A feeder that has been given `before`, all of it in sync.
  ghost predicate InStep(f: Feeder, t: Trace, before: seq<Byte>, hash: seq<Byte> -> nat)
    requires |t.pids| == PIDS
  {
    f.trace == InspectAll(t, Packets(before), hash) && f.remainder == Rest(before)
  }

  // Bytes in sync are inspected from their start, and what is left of them is kept.
  lemma FeedsSynced(f: Feeder, bytes: seq<Byte>, hash: seq<Byte> -> nat)
    requires |f.trace.pids| == PIDS && bytes != [] && Synced(bytes)
    ensures var u := FeedAligned(f, bytes, hash);
            u.trace == InspectAll(f.trace, Packets(bytes), hash) && u.remainder == Rest(bytes)
  {
    RestIsShort(bytes);
    assert bytes[0..] == bytes && Rest(bytes)[0..] == Rest(bytes);
    if |bytes| >= PACKET {
      if |bytes| > PACKET { assert bytes[PACKET..][0] == SYNC; }
      assert Aligned(bytes, 0);
    }
  }

  lemma FeedInStep(f: Feeder, t: Trace, before: seq<Byte>, data: seq<Byte>, hash: seq<Byte> -> nat)
    requires |t.pids| == PIDS && InStep(f, t, before, hash) && Synced(before + data)
    ensures InStep(Feed(f, data, hash), t, before + data, hash)
  {
    if data == [] {
      assert before + data == before;
    } else {
      PacketsAppend(before, data);
      InspectConcat(t, Packets(before), Packets(Rest(before) + data), hash);
      SyncedSuffix(before, data);
      if f.remainder == [] && |data| % PACKET == 0 && data[0] == SYNC {
        assert f.remainder + data == data;
        RestIsShort(data);
      } else {
        FeedsSynced(f, f.remainder + data, hash);
      }
    }
  }

  // On a stream in sync every way of cutting it into chunks gives the same counters,
  // those of its packets.
  lemma {:induction false} ChunkingDoesNotMatter(
      f: Feeder, t: Trace, before: seq<Byte>, chunks: seq<seq<Byte>>, hash: seq<Byte> -> nat)
    requires |t.pids| == PIDS && InStep(f, t, before, hash) && Synced(before + Concat(chunks))
    ensures InStep(FeedAll(f, chunks, hash), t, before + Concat(chunks), hash)
    decreases |chunks|
  {
    if chunks == [] {
      assert before + Concat(chunks) == before;
    } else {
      assert before + Concat(chunks) == (before + chunks[0]) + Concat(chunks[1..]);
      SyncedPrefix(before + chunks[0], Concat(chunks[1..]));
      FeedInStep(f, t, before, chunks[0], hash);
      ChunkingDoesNotMatter(Feed(f, chunks[0], hash), t, before + chunks[0], chunks[1..], hash);
    }
  }

  lemma {:induction false} SyncedPrefix(a: seq<Byte>, b: seq<Byte>)
    requires Synced(a + b)
    ensures Synced(a)
    decreases |a|
  {
    if |a| > PACKET {
      assert (a + b)[PACKET..] == a[PACKET..] + b;
      SyncedPrefix(a[PACKET..], b);
    }
    if a != [] { assert (a + b)[0] == a[0]; }
  }

  lemma SyncedStreamCounters(chunks: seq<seq<Byte>>, hash: seq<Byte> -> nat)
    requires Synced(Concat(chunks))
    ensures FeedAll(Feeder(Start(), [], 0, 0), chunks, hash).trace == InspectAll(Start(), Packets(Concat(chunks)), hash)
    ensures FeedAll(Feeder(Start(), [], 0, 0), chunks, hash).remainder == Rest(Concat(chunks))
  {
    assert [] + Concat(chunks) == Concat(chunks);
    ChunkingDoesNotMatter(Feeder(Start(), [], 0, 0), Start(), [], chunks, hash);
  }

  // ----- The tracer object -------------------------------------------------------------------------------

  class StageTrace {
    const hash: seq<Byte> -> nat        // packetHash
    var remainder: seq<Byte>
    const lastCc: array<nat>
    const valid: array<bool>
    const lastHash: array<nat>
    const hashValid: array<bool>
    const pidErrors: array<nat>
    const pidDuplicates: array<nat>
    var counters: Counters
    var misses: nat                     // alignmentMisses_
    var resyncBytes: nat
    ghost var model: Trace

    function PidAt(q: nat): PidState
      requires q < lastCc.Length && q < valid.Length && q < lastHash.Length
      requires q < hashValid.Length && q < pidErrors.Length && q < pidDuplicates.Length
      reads lastCc, valid, lastHash, hashValid, pidErrors, pidDuplicates
    {
      PidState(lastCc[q], valid[q], lastHash[q], hashValid[q], pidErrors[q], pidDuplicates[q])
    }

    ghost predicate Shaped() {
      && lastCc.Length == valid.Length == lastHash.Length == PIDS
      && hashValid.Length == pidErrors.Length == pidDuplicates.Length == PIDS
      && lastCc != lastHash && lastCc != pidErrors && lastCc != pidDuplicates
      && lastHash != pidErrors && lastHash != pidDuplicates && pidErrors != pidDuplicates
      && valid != hashValid
    }

    // The fields show the model.
    ghost predicate Valid()
      reads this, lastCc, valid, lastHash, hashValid, pidErrors, pidDuplicates
    {
      && Shaped()
      && |model.pids| == PIDS
      && counters == model.counters
      && forall q :: 0 <= q < PIDS ==> PidAt(q) == model.pids[q]
    }

    constructor (hash: seq<Byte> -> nat)
      ensures Valid() && model == Start() && remainder == [] && misses == 0 && resyncBytes == 0
      ensures this.hash == hash
      ensures fresh(lastCc) && fresh(valid) && fresh(lastHash) && fresh(hashValid)
      ensures fresh(pidErrors) && fresh(pidDuplicates)
    {
      this.hash := hash;
      remainder, counters, misses, resyncBytes := [], ZERO, 0, 0;
      lastCc := new nat[PIDS](_ => 0);
      valid := new bool[PIDS](_ => false);
      lastHash := new nat[PIDS](_ => 0);
      hashValid := new bool[PIDS](_ => false);
      pidErrors := new nat[PIDS](_ => 0);
      pidDuplicates := new nat[PIDS](_ => 0);
      model := Start();
    }

    // inspectPacket: the branches of the source in their order.
    method InspectPacket(packet: seq<Byte>)
      requires Valid() && IsPacket(packet)
      modifies this`counters, this`model, lastCc, valid, lastHash, hashValid, pidErrors, pidDuplicates
      ensures Valid() && model == Inspect(old(model), packet, hash)
    {
      if packet[0] != SYNC {
        counters := counters.(badSync := counters.badSync + 1);
        model := Inspect(model, packet, hash);
        return;
      }
      InspectSynced(packet);
    }

    method InspectSynced(packet: seq<Byte>)
      requires Valid() && IsPacket(packet) && packet[0] == SYNC
      modifies this`counters, this`model, lastCc, valid, lastHash, hashValid, pidErrors, pidDuplicates
      ensures Valid() && model == Inspect(old(model), packet, hash)
    {
      var pid := Pid(packet);
      counters := counters.(packets := counters.packets + 1,
                            tei := counters.tei + (if packet[1] >= 0x80 then 1 else 0));
      if pid != NULL_PID {
        assert PidAt(pid) == model.pids[pid];
        InspectTraced(packet, pid);
      }
      model := Inspect(model, packet, hash);
    }

    method InspectTraced(packet: seq<Byte>, pid: nat)
      requires Shaped() && IsPacket(packet) && pid == Pid(packet)
      modifies this`counters, lastCc, valid, lastHash, hashValid, pidErrors, pidDuplicates
      ensures PidAt(pid) == Next(old(PidAt(pid)), packet, hash)
      ensures counters == CountTraced(old(counters), old(PidAt(pid)), packet, hash)
      ensures forall q :: 0 <= q < PIDS && q != pid ==> PidAt(q) == old(PidAt(q))
    {
      var afc, cc := Afc(packet), Cc(packet);
      if afc == 0 {
        counters := counters.(badAfc := counters.badAfc + 1);
        valid[pid] := false;
        hashValid[pid] := false;
        return;
      }
      if (afc == 2 || afc == 3) && 0 < packet[4] <= 183 && packet[5] >= 0x80 {
        counters := counters.(discontinuities := counters.discontinuities + 1);
        valid[pid] := false;
        hashValid[pid] := false;
      }
      assert PidAt(pid) == Reset(old(PidAt(pid)), packet);
      if afc == 2 {
        counters := counters.(adaptationOnly := counters.adaptationOnly + 1);
        if valid[pid] && cc != lastCc[pid] {
          counters := counters.(adaptationOnlyErrors := counters.adaptationOnlyErrors + 1);
          RecordCcError(pid);
        }
      } else {
        TakePayload(pid, cc, hash(packet));
      }
    }

    // The payload part of inspectPacket.
    method TakePayload(pid: nat, cc: nat, h: nat)
      requires Shaped() && pid < PIDS && cc < 16
      modifies this`counters, lastCc, valid, lastHash, hashValid, pidErrors, pidDuplicates
      ensures var s := old(PidAt(pid));
              var repeated := s.valid && cc == s.lastCc && s.hashValid && s.hash == h;
              var lost := s.valid && !repeated && cc != (s.lastCc + 1) % 16;
              && PidAt(pid) == (if repeated then s.(duplicates := s.duplicates + 1)
                                else PidState(cc, true, h, true, s.errors + (if lost then 1 else 0), s.duplicates))
              && counters == (if repeated then old(counters).(duplicates := old(counters).duplicates + 1)
                              else old(counters).(errors := old(counters).errors + (if lost then 1 else 0)))
      ensures forall q :: 0 <= q < PIDS && q != pid ==> PidAt(q) == old(PidAt(q))
    {
      if valid[pid] {
        var previous := lastCc[pid];
        if cc == previous && hashValid[pid] && lastHash[pid] == h {
          counters := counters.(duplicates := counters.duplicates + 1);
          pidDuplicates[pid] := pidDuplicates[pid] + 1;
          return;
        }
        if cc != (previous + 1) % 16 { RecordCcError(pid); }
      }
      lastCc[pid] := cc;
      valid[pid] := true;
      lastHash[pid] := h;
      hashValid[pid] := true;
    }

    method RecordCcError(pid: nat)
      requires Shaped() && pid < PIDS
      modifies this`counters, pidErrors
      ensures counters == old(counters).(errors := old(counters).errors + 1)
      ensures pidErrors[pid] == old(pidErrors[pid]) + 1
      ensures forall q :: 0 <= q < PIDS && q != pid ==> pidErrors[q] == old(pidErrors[q])
    {
      counters := counters.(errors := counters.errors + 1);
      pidErrors[pid] := pidErrors[pid] + 1;
    }

    ghost function View(): Feeder
      reads this
    {
      Feeder(model, remainder, misses, resyncBytes)
    }

    // The packet loop over the bytes from an aligned offset on.
    method InspectFrom(bytes: seq<Byte>, start: nat) returns (offset: nat)
      requires Valid() && start <= |bytes|
      modifies this`counters, this`model, lastCc, valid, lastHash, hashValid, pidErrors, pidDuplicates
      ensures Valid() && model == InspectAll(old(model), Packets(bytes[start..]), hash)
      ensures start <= offset <= |bytes| && bytes[offset..] == Rest(bytes[start..])
    {
      offset := start;
      while offset + PACKET <= |bytes|
        invariant Valid() && start <= offset <= |bytes|
        invariant InspectAll(model, Packets(bytes[offset..]), hash)
               == InspectAll(old(model), Packets(bytes[start..]), hash)
        invariant Rest(bytes[offset..]) == Rest(bytes[start..])
      {
        ghost var left := bytes[offset..];
        assert left[..PACKET] == bytes[offset..offset + PACKET];
        assert left[PACKET..] == bytes[offset + PACKET..];
        InspectFirst(model, bytes[offset..offset + PACKET], Packets(left[PACKET..]), hash);
        InspectPacket(bytes[offset..offset + PACKET]);
        offset := offset + PACKET;
      }
    }

    method FindOffset(bytes: seq<Byte>) returns (offset: nat)
      ensures offset == FindAlignment(bytes) && offset <= |bytes|
    {
      if |bytes| < PACKET { return |bytes|; }
      var candidate := 0;
      while candidate < PACKET
        invariant 0 <= candidate <= PACKET
        invariant AlignmentFrom(bytes, candidate) == AlignmentFrom(bytes, 0)
      {
        if bytes[candidate] == SYNC && (candidate + PACKET >= |bytes| || bytes[candidate + PACKET] == SYNC) {
          return candidate;
        }
        candidate := candidate + 1;
      }
      offset := |bytes|;
    }

    method InspectChunk(data: seq<Byte>)
      requires Valid()
      modifies this, lastCc, valid, lastHash, hashValid, pidErrors, pidDuplicates
      ensures Valid() && View() == Feed(old(View()), data, hash)
    {
      if data == [] { return; }
      if remainder == [] && |data| % PACKET == 0 && data[0] == SYNC {
        assert data[0..] == data;
        var end := InspectFrom(data, 0);
        return;
      }
      Realign(remainder + data);
    }

    method Realign(bytes: seq<Byte>)
      requires Valid()
      modifies this, lastCc, valid, lastHash, hashValid, pidErrors, pidDuplicates
      ensures Valid() && View() == FeedAligned(old(View()), bytes, hash)
    {
      var offset := FindOffset(bytes);
      if offset == |bytes| {
        misses := misses + 1;
        remainder := KeepTail(bytes, 0);
        return;
      }
      if offset != 0 { resyncBytes := resyncBytes + offset; }
      var end := InspectFrom(bytes, offset);
      assert bytes[end..][0..] == bytes[end..];
      RestIsShort(bytes[offset..]);
      remainder := if end < |bytes| then bytes[end..] else [];
    }
  }

  lemma {:induction false} InspectFirst(t: Trace, p: seq<Byte>, more: seq<seq<Byte>>, hash: seq<Byte> -> nat)
    requires |t.pids| == PIDS && IsPacket(p) && forall i :: 0 <= i < |more| ==> IsPacket(more[i])
    ensures InspectAll(t, [p] + more, hash) == InspectAll(Inspect(t, p, hash), more, hash)
  {
    InspectConcat(t, [p], more, hash);
    assert [p][..0] == [];
    assert InspectAll(t, [p], hash) == Inspect(InspectAll(t, [], hash), p, hash);
  }
}
