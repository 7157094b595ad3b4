// Incremental framing of transport stream packets with resynchronisation.
module PsiFraming {
  import opened Helpers
  import opened Ts

  datatype Framed = Framed(packets: seq<seq<Byte>>, rest: seq<Byte>)

  // ----- What one call does with its buffer ----------------------------------------

  // The first sync byte at or after `from`, or the length of the buffer.
  function NextSync(s: seq<Byte>, from: nat): (k: nat)
    requires from <= |s|
    ensures from <= k <= |s|
    ensures k < |s| ==> s[k] == SYNC
    ensures forall i :: from <= i < k ==> s[i] != SYNC
    decreases |s| - from
  {
    if from == |s| || s[from] == SYNC then from else NextSync(s, from + 1)
  }

  // A sync byte is looked for only while a whole packet's worth of bytes is buffered.
  function Frame(s: seq<Byte>): (f: Framed)
    ensures |f.rest| < PACKET
    ensures forall i :: 0 <= i < |f.packets| ==> |f.packets[i]| == PACKET && f.packets[i][0] == SYNC
    decreases |s|
  {
    if |s| < PACKET then Framed([], s)
    else if s[0] != SYNC then
      var k := NextSync(s, 1);
      if k == |s| then Framed([], []) else Frame(s[k..])
    else
      var f := Frame(s[PACKET..]);
      Framed([s[..PACKET]] + f.packets, f.rest)
  }

  // ----- Reference: skip to a sync byte, take a packet, repeat -----------------------------

  function DropToSync(s: seq<Byte>): (r: seq<Byte>)
    ensures r == [] || r[0] == SYNC
  {
    s[NextSync(s, 0)..]
  }

  function Scan(s: seq<Byte>): (f: Framed)
    decreases |s|
  {
    var n := DropToSync(s);
    if |n| < PACKET then Framed([], n)
    else
      var f := Scan(n[PACKET..]);
      Framed([n[..PACKET]] + f.packets, f.rest)
  }

  lemma {:induction false} NextSyncShift(s: seq<Byte>, from: nat, skip: nat)
    requires skip <= from <= |s|
    ensures NextSync(s, from) == skip + NextSync(s[skip..], from - skip)
    decreases |s| - from
  {
    if from < |s| && s[from] != SYNC { NextSyncShift(s, from + 1, skip); }
  }

  // Bytes before the first sync byte never matter to the reference.
  lemma ScanIgnoresLeadingNoise(s: seq<Byte>)
    ensures Scan(s) == Scan(DropToSync(s))
  {
    var n := DropToSync(s);
    assert DropToSync(n) == n;
  }

  // One call cuts the packets the reference cuts; the kept bytes agree up to leading noise.
  lemma {:induction false} FrameIsScan(s: seq<Byte>)
    ensures Frame(s).packets == Scan(s).packets
    ensures DropToSync(Frame(s).rest) == Scan(s).rest
    decreases |s|
  {
    if |s| < PACKET {
    } else if s[0] != SYNC {
      var k := NextSync(s, 1);
      assert NextSync(s, 0) == k;
      if k == |s| {
        assert DropToSync(s) == [];
      } else {
        assert DropToSync(s) == s[k..];
        FrameIsScan(s[k..]);
        ScanIgnoresLeadingNoise(s);
      }
    } else {
      assert DropToSync(s) == s;
      FrameIsScan(s[PACKET..]);
    }
  }

  lemma {:induction false} NextSyncAppend(a: seq<Byte>, b: seq<Byte>, from: nat)
    requires from <= |a|
    ensures NextSync(a + b, from) == if NextSync(a, from) < |a| then NextSync(a, from) else |a| + NextSync(b, 0)
    decreases |a| - from
  {
    if from == |a| {
      NextSyncShift(a + b, from, |a|);
      assert (a + b)[|a|..] == b;
    } else if a[from] != SYNC {
      NextSyncAppend(a, b, from + 1);
    }
  }

  lemma DropToSyncAppend(a: seq<Byte>, b: seq<Byte>)
    ensures DropToSync(a + b) == if DropToSync(a) == [] then DropToSync(b) else DropToSync(a) + b
  {
    NextSyncAppend(a, b, 0);
    var k := NextSync(a, 0);
    if k < |a| {
      assert (a + b)[k..] == a[k..] + b;
    } else {
      assert (a + b)[|a| + NextSync(b, 0)..] == b[NextSync(b, 0)..];
    }
  }

  lemma ScanStep(n: seq<Byte>)
    requires |n| >= PACKET && n[0] == SYNC
    ensures var more := Scan(n[PACKET..]); Scan(n) == Framed([n[..PACKET]] + more.packets, more.rest)
  {
    assert NextSync(n, 0) == 0;
    assert DropToSync(n) == n;
  }

  lemma SliceAppend(n: seq<Byte>, b: seq<Byte>, k: nat)
    requires k <= |n|
    ensures (n + b)[..k] == n[..k] && (n + b)[k..] == n[k..] + b
  {
  }

  lemma ScanShort(n: seq<Byte>)
    requires |n| < PACKET && (n == [] || n[0] == SYNC)
    ensures Scan(n) == Framed([], n)
  {
    assert DropToSync(n) == n;
  }

  // The reference can be stopped anywhere and resumed with the bytes it kept.
  lemma {:induction false} ScanResumes(a: seq<Byte>, b: seq<Byte>)
    ensures Scan(a + b).packets == Scan(a).packets + Scan(Scan(a).rest + b).packets
    ensures Scan(a + b).rest == Scan(Scan(a).rest + b).rest
    decreases |a|
  {
    var n := DropToSync(a);
    NoiseBefore(a, b);
    ScanIgnoresLeadingNoise(a);
    if |n| < PACKET {
      ScanShort(n);
    } else {
      var tail := n[PACKET..];
      ScanStep(n);
      ScanStep(n + b);
      SliceAppend(n, b, PACKET);
      ScanResumes(tail, b);
      Associate([n[..PACKET]], Scan(tail).packets, Scan(Scan(tail).rest + b).packets);
    }
  }

  // ----- Calls in a row ---------------------------------------------------------------

  // The buffer and all packets handed on after a call; a call without bytes does nothing.
  function FeedBytes(f: Framed, data: seq<Byte>): Framed {
    if data == [] then f
    else
      var g := Frame(f.rest + data);
      Framed(f.packets + g.packets, g.rest)
  }

  function FeedChunks(f: Framed, chunks: seq<seq<Byte>>): Framed
    decreases |chunks|
  {
    if chunks == [] then f else FeedChunks(FeedBytes(f, chunks[0]), chunks[1..])
  }

  // Everything fed so far, `seen`, has been cut as the reference cuts it in one go.
  ghost predicate CutLikeWhole(f: Framed, seen: seq<Byte>) {
    f.packets == Scan(seen).packets && DropToSync(f.rest) == Scan(seen).rest && |f.rest| < PACKET
  }

  lemma NoiseBefore(r: seq<Byte>, data: seq<Byte>)
    ensures Scan(r + data) == Scan(DropToSync(r) + data)
  {
    DropToSyncAppend(r, data);
    ScanIgnoresLeadingNoise(r + data);
    if DropToSync(r) == [] {
      assert DropToSync(r) + data == data;
      ScanIgnoresLeadingNoise(data);
    } else {
      ScanIgnoresLeadingNoise(DropToSync(r) + data);
    }
  }

  lemma FeedKeepsCut(f: Framed, seen: seq<Byte>, data: seq<Byte>)
    requires CutLikeWhole(f, seen)
    ensures CutLikeWhole(FeedBytes(f, data), seen + data)
  {
    if data == [] {
      assert seen + data == seen;
    } else {
      FrameIsScan(f.rest + data);
      NoiseBefore(f.rest, data);
      ScanResumes(seen, data);
    }
  }

  lemma {:induction false} ChunksKeepCut(f: Framed, seen: seq<Byte>, chunks: seq<seq<Byte>>)
    requires CutLikeWhole(f, seen)
    ensures CutLikeWhole(FeedChunks(f, chunks), seen + Concat(chunks))
    decreases chunks
  {
    if chunks == [] {
      assert seen + [] == seen;
    } else {
      FeedKeepsCut(f, seen, chunks[0]);
      ChunksKeepCut(FeedBytes(f, chunks[0]), seen + chunks[0], chunks[1..]);
      assert seen + Concat(chunks) == (seen + chunks[0]) + Concat(chunks[1..]);
    }
  }

  // MAIN: how a byte stream is split over calls changes neither the packets nor, up to
  // leading bytes that are not a sync byte, what stays buffered; less than a packet stays.
  lemma FramingIgnoresChunking(chunks: seq<seq<Byte>>, others: seq<seq<Byte>>)
    requires Concat(chunks) == Concat(others)
    ensures var f, g := FeedChunks(Framed([], []), chunks), FeedChunks(Framed([], []), others);
            && f.packets == g.packets
            && DropToSync(f.rest) == DropToSync(g.rest)
            && |f.rest| < PACKET && |g.rest| < PACKET
  {
    ChunksKeepCut(Framed([], []), [], chunks);
    ChunksKeepCut(Framed([], []), [], others);
    assert [] + Concat(chunks) == Concat(chunks);
    assert [] + Concat(others) == Concat(others);
  }

  // ----- Exactly when the remainders differ ----------------------------------------------

  // The bytes behind the last packet.
  function Tail(s: seq<Byte>): (t: seq<Byte>)
    ensures |t| <= |s| && |DropToSync(t)| < PACKET
    decreases |s|
  {
    var n := DropToSync(s);
    if |n| < PACKET then s else Tail(n[PACKET..])
  }

  // What one call keeps of them.
  function Kept(t: seq<Byte>): seq<Byte> {
    if |t| < PACKET then t else DropToSync(t)
  }

  // How many of them come before the next sync byte.
  function Noise(t: seq<Byte>): nat { NextSync(t, 0) }

  lemma {:induction false} FrameKeeps(s: seq<Byte>)
    ensures Frame(s).rest == Kept(Tail(s))
    decreases |s|
  {
    if |s| < PACKET {
    } else if s[0] != SYNC {
      var k := NextSync(s, 1);
      assert NextSync(s, 0) == k;
      var n := s[k..];
      assert DropToSync(s) == n;
      if |n| >= PACKET { FrameKeeps(n[PACKET..]); }
    } else {
      NothingToDrop(s);
      FrameKeeps(s[PACKET..]);
    }
  }

  // Behind their noise is what the reference keeps.
  lemma {:induction false} TailIsBehindPackets(s: seq<Byte>)
    ensures DropToSync(Tail(s)) == Scan(s).rest
    decreases |s|
  {
    var n := DropToSync(s);
    if |n| >= PACKET { TailIsBehindPackets(n[PACKET..]); }
  }

  lemma {:induction false} TailResumes(a: seq<Byte>, b: seq<Byte>)
    ensures Tail(a + b) == Tail(Tail(a) + b)
    decreases |a|
  {
    var n := DropToSync(a);
    if |n| >= PACKET {
      DropToSyncAppend(a, b);
      SliceAppend(n, b, PACKET);
      TailResumes(n[PACKET..], b);
    }
  }

  // What any calls have kept of `seen`.
  ghost predicate KeptOf(rest: seq<Byte>, t: seq<Byte>) {
    && |rest| < PACKET && DropToSync(rest) == DropToSync(t)
    && (Noise(t) <= PACKET ==> rest == Kept(t))
  }

  lemma FeedKeeps(rest: seq<Byte>, t: seq<Byte>, data: seq<Byte>)
    requires KeptOf(rest, t) && |DropToSync(t)| < PACKET
    ensures KeptOf(Frame(rest + data).rest, Tail(t + data))
  {
    FrameKeeps(rest + data);
    DropToSyncAppend(rest, data);
    DropToSyncAppend(t, data);
    NextSyncAppend(t, data, 0);
    var n := DropToSync(t + data);
    if |n| < PACKET {
      KeptWithoutPacket(rest, t, data);
    } else {
      assert Tail(rest + data) == Tail(t + data);
      KeptAgrees(Tail(t + data));
    }
  }

  lemma KeptAgrees(t: seq<Byte>)
    requires |DropToSync(t)| < PACKET
    ensures |Kept(t)| < PACKET && DropToSync(Kept(t)) == DropToSync(t)
  {
    if |t| >= PACKET { NothingToDrop(DropToSync(t)); }
  }

  lemma NothingToDrop(n: seq<Byte>)
    requires n == [] || n[0] == SYNC
    ensures DropToSync(n) == n
  {
    assert n[0..] == n;
  }

  // No packet is completed: what was kept is all of the tail, or what follows its noise.
  lemma KeptWithoutPacket(rest: seq<Byte>, t: seq<Byte>, data: seq<Byte>)
    requires KeptOf(rest, t) && |DropToSync(t + data)| < PACKET
    requires DropToSync(rest + data) == DropToSync(t + data)
    ensures KeptOf(Kept(rest + data), t + data)
  {
    KeptAgrees(rest + data);
    NextSyncAppend(t, data, 0);
    DropToSyncAppend(t, data);
    if Noise(t + data) <= PACKET {
      if |t| >= PACKET {
        if DropToSync(t) == [] {
          assert rest + data == data;
          assert Noise(data) == 0;
        } else {
          assert rest + data == DropToSync(t) + data;
        }
      }
    }
  }

  lemma FeedKeepsSeen(f: Framed, seen: seq<Byte>, data: seq<Byte>)
    requires KeptOf(f.rest, Tail(seen))
    ensures KeptOf(FeedBytes(f, data).rest, Tail(seen + data))
  {
    if data == [] {
      assert seen + data == seen;
    } else {
      FeedKeeps(f.rest, Tail(seen), data);
      TailResumes(seen, data);
    }
  }

  lemma {:induction false} ChunksKeep(f: Framed, seen: seq<Byte>, chunks: seq<seq<Byte>>, all: seq<Byte>)
    requires KeptOf(f.rest, Tail(seen)) && all == seen + Concat(chunks)
    ensures KeptOf(FeedChunks(f, chunks).rest, Tail(all))
    decreases chunks
  {
    if chunks == [] {
      assert all == seen;
    } else {
      FeedKeepsSeen(f, seen, chunks[0]);
      Associate(seen, chunks[0], Concat(chunks[1..]));
      ChunksKeep(FeedBytes(f, chunks[0]), seen + chunks[0], chunks[1..], all);
    }
  }

  // Two ways of splitting the stream leave different remainders.
  ghost predicate RemaindersDiffer(seen: seq<Byte>) {
    exists chunks: seq<seq<Byte>>, others: seq<seq<Byte>> ::
      Concat(chunks) == seen && Concat(others) == seen
      && FeedChunks(Framed([], []), chunks).rest != FeedChunks(Framed([], []), others).rest
  }

  lemma RemainderIs(chunks: seq<seq<Byte>>, seen: seq<Byte>)
    requires Concat(chunks) == seen
    ensures KeptOf(FeedChunks(Framed([], []), chunks).rest, Tail(seen))
    ensures Noise(Tail(seen)) <= PACKET || |DropToSync(Tail(seen))| == PACKET - 1 ==>
              FeedChunks(Framed([], []), chunks).rest == Kept(Tail(seen))
  {
    assert [] + seen == seen;
    ChunksKeep(Framed([], []), [], chunks, seen);
  }

  // Cutting off bytes behind the last packet leaves the packets.
  lemma {:induction false} TailCut(a: seq<Byte>, b: seq<Byte>)
    requires |b| <= |Tail(a + b)|
    ensures Tail(a + b) == Tail(a) + b
    decreases |a|
  {
    var n, m := DropToSync(a), DropToSync(a + b);
    DropToSyncAppend(a, b);
    if |m| >= PACKET {
      assert n != [] && m == n + b;
      SliceAppend(n, b, PACKET);
      TailCut(n[PACKET..], b);
    }
  }

  // The last byte of long noise, and what follows it.
  lemma LongNoise(t: seq<Byte>, a: seq<Byte>, b: seq<Byte>)
    requires t == a + b && Noise(t) > PACKET && |a| == Noise(t) - 1 && |DropToSync(t)| < PACKET - 1
    ensures Kept(a) == [] && Kept(t) == DropToSync(t) && Kept(b) == b != DropToSync(t)
  {
    assert forall i :: 0 <= i < |a| ==> a[i] == t[i];
    assert NextSync(a, 0) == |a|;
    assert |b| == 1 + |DropToSync(t)|;
  }

  // Noise arriving in two pieces is kept in part, in one piece it is not.
  lemma LongNoiseDiffers(seen: seq<Byte>)
    requires Noise(Tail(seen)) > PACKET && |DropToSync(Tail(seen))| < PACKET - 1
    ensures RemaindersDiffer(seen)
  {
    var k := |seen| - |DropToSync(Tail(seen))| - 1;
    var a, b := seen[..k], seen[k..];
    assert seen == a + b;
    TailCut(a, b);
    LongNoiseIsCut(a, b, seen, Tail(seen));
  }

  lemma LongNoiseIsCut(a: seq<Byte>, b: seq<Byte>, seen: seq<Byte>, t: seq<Byte>)
    requires seen == a + b && t == Tail(seen) == Tail(a) + b && |b| == |DropToSync(t)| + 1 < PACKET
    requires Noise(t) > PACKET
    ensures RemaindersDiffer(seen)
  {
    LongNoise(t, Tail(a), b);
    CutDiffers(a, b, seen);
  }

  lemma CutDiffers(a: seq<Byte>, b: seq<Byte>, seen: seq<Byte>)
    requires seen == a + b && a != [] && b != [] && |b| < PACKET && Kept(Tail(a)) == [] && Kept(Tail(seen)) != b
    ensures RemaindersDiffer(seen)
  {
    FeedOne(seen);
    FrameKeeps(seen);
    SplitKeeps(a, b);
    var one, two := [seen], [a, b];
    assert Concat(one) == seen && Concat(two) == seen;
  }

  lemma SplitKeeps(a: seq<Byte>, b: seq<Byte>)
    requires a != [] && b != [] && |b| < PACKET && Kept(Tail(a)) == []
    ensures FeedChunks(Framed([], []), [a, b]).rest == b && Concat([a, b]) == a + b
  {
    FrameKeeps(a);
    FeedTwo(a, b);
    assert [] + b == b;
  }

  // MAIN: two splits of a stream can leave different remainders exactly when more than a packet's worth
  // of bytes that are not a sync byte follows the last packet, and what is behind them is not a packet
  // short of one byte. Otherwise every split leaves what a single call leaves.
  lemma RemaindersDifferExactly(seen: seq<Byte>)
    ensures RemaindersDiffer(seen)
       <==> Noise(Tail(seen)) > PACKET && |DropToSync(Tail(seen))| < PACKET - 1
  {
    if Noise(Tail(seen)) > PACKET && |DropToSync(Tail(seen))| < PACKET - 1 {
      LongNoiseDiffers(seen);
    } else {
      forall chunks: seq<seq<Byte>> | Concat(chunks) == seen
        ensures FeedChunks(Framed([], []), chunks).rest == Kept(Tail(seen))
      {
        RemainderIs(chunks, seen);
      }
    }
  }

  // The shortest such stream: a packet's worth of noise and one byte more.
  lemma RemaindersMayDiffer()
    ensures RemaindersDiffer(seq(PACKET + 1, _ => 0))
  {
    var noise: seq<Byte> := seq(PACKET + 1, _ => 0);
    assert NextSync(noise, 0) == |noise|;
    assert Tail(noise) == noise;
    LongNoiseDiffers(noise);
  }

  lemma FeedOne(data: seq<Byte>)
    requires data != []
    ensures FeedChunks(Framed([], []), [data]) == FeedBytes(Framed([], []), data) == Frame(data)
    ensures Concat([data]) == data
  {
    var start := Framed([], []);
    assert start.rest + data == data;
    assert [data][1..] == [] && Concat([data]) == data + Concat([]);
    assert start.packets + Frame(data).packets == Frame(data).packets;
  }

  lemma FeedTwo(a: seq<Byte>, b: seq<Byte>)
    requires a != [] && b != []
    ensures FeedChunks(Framed([], []), [a, b]).rest == Frame(Frame(a).rest + b).rest
    ensures Concat([a, b]) == a + b
  {
    var start, f := Framed([], []), FeedBytes(Framed([], []), a);
    assert start.rest + a == a;
    assert [a, b][1..] == [b] && [b][1..] == [];
    assert FeedChunks(start, [a, b]) == FeedChunks(f, [b]) == FeedChunks(FeedBytes(f, b), []);
    assert Concat([b]) == b + Concat([]) == b;
    assert Concat([a, b]) == a + Concat([b]);
  }

  // ----- Whatever is done with the packets -----------------------------------------------

  // A scanner whose tables, of any kind, are changed packet by packet.
  datatype Reader<T> = Reader(rest: seq<Byte>, tables: T)

  function ReadAll<T>(step: (T, seq<Byte>) -> T, tables: T, packets: seq<seq<Byte>>): T
    decreases |packets|
  {
    if packets == [] then tables else ReadAll(step, step(tables, packets[0]), packets[1..])
  }

  function ReadBytes<T>(step: (T, seq<Byte>) -> T, r: Reader<T>, data: seq<Byte>): Reader<T> {
    if data == [] then r
    else
      var f := Frame(r.rest + data);
      Reader(f.rest, ReadAll(step, r.tables, f.packets))
  }

  function ReadChunks<T>(step: (T, seq<Byte>) -> T, r: Reader<T>, chunks: seq<seq<Byte>>): Reader<T>
    decreases |chunks|
  {
    if chunks == [] then r else ReadChunks(step, ReadBytes(step, r, chunks[0]), chunks[1..])
  }

  lemma {:induction false} ReadConcat<T>(step: (T, seq<Byte>) -> T, tables: T, a: seq<seq<Byte>>, b: seq<seq<Byte>>)
    ensures ReadAll(step, tables, a + b) == ReadAll(step, ReadAll(step, tables, a), b)
    decreases |a|
  {
    if a == [] {
      assert a + b == b;
    } else {
      assert (a + b)[1..] == a[1..] + b;
      ReadConcat(step, step(tables, a[0]), a[1..], b);
    }
  }

  // Every packet is read once, behind the ones before it.
  lemma ReadLast<T>(step: (T, seq<Byte>) -> T, tables: T, packets: seq<seq<Byte>>, p: seq<Byte>)
    ensures ReadAll(step, tables, packets + [p]) == step(ReadAll(step, tables, packets), p)
  {
    ReadConcat(step, tables, packets, [p]);
    assert [p][1..] == [];
  }

  lemma {:induction false} ReaderFollowsFramer<T>(
      step: (T, seq<Byte>) -> T, tables: T, r: Reader<T>, f: Framed, chunks: seq<seq<Byte>>)
    requires r == Reader(f.rest, ReadAll(step, tables, f.packets))
    ensures var g := FeedChunks(f, chunks);
            ReadChunks(step, r, chunks) == Reader(g.rest, ReadAll(step, tables, g.packets))
    decreases |chunks|
  {
    if chunks != [] {
      if chunks[0] != [] { ReadConcat(step, tables, f.packets, Frame(f.rest + chunks[0]).packets); }
      ReaderFollowsFramer(step, tables, ReadBytes(step, r, chunks[0]), FeedBytes(f, chunks[0]), chunks[1..]);
    }
  }

  // MAIN: whatever a packet does to the scanner's tables, services, conditional access and scrambling
  // marks included, the split of the stream over calls does not show in them.
  lemma AnyTablesIgnoreChunking<T>(
      step: (T, seq<Byte>) -> T, tables: T, chunks: seq<seq<Byte>>, others: seq<seq<Byte>>)
    requires Concat(chunks) == Concat(others)
    ensures var r, q := ReadChunks(step, Reader([], tables), chunks), ReadChunks(step, Reader([], tables), others);
            r.tables == q.tables && DropToSync(r.rest) == DropToSync(q.rest)
  {
    FramingIgnoresChunking(chunks, others);
    ReaderFollowsFramer(step, tables, Reader([], tables), Framed([], []), chunks);
    ReaderFollowsFramer(step, tables, Reader([], tables), Framed([], []), others);
  }

  // ----- A stream of whole packets -----------------------------------------------------

  lemma {:induction false} WholePackets(packets: seq<seq<Byte>>)
    requires forall i :: 0 <= i < |packets| ==> |packets[i]| == PACKET && packets[i][0] == SYNC
    ensures Scan(Concat(packets)) == Framed(packets, [])
    decreases packets
  {
    if packets == [] {
      assert DropToSync(Concat(packets)) == Concat(packets);
    } else {
      var s := Concat(packets);
      WholePackets(packets[1..]);
      assert DropToSync(s) == s;
      assert s[..PACKET] == packets[0] && s[PACKET..] == Concat(packets[1..]);
      assert packets == [packets[0]] + packets[1..];
    }
  }

  // MAIN: a stream of whole packets, split in any way, comes back packet by packet.
  lemma PacketsComeBack(packets: seq<seq<Byte>>, chunks: seq<seq<Byte>>)
    requires forall i :: 0 <= i < |packets| ==> |packets[i]| == PACKET && packets[i][0] == SYNC
    requires Concat(chunks) == Concat(packets)
    ensures FeedChunks(Framed([], []), chunks).packets == packets
    ensures |DropToSync(FeedChunks(Framed([], []), chunks).rest)| == 0
  {
    ChunksKeepCut(Framed([], []), [], chunks);
    assert [] + Concat(chunks) == Concat(chunks);
    WholePackets(packets);
  }
}
