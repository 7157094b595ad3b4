// The PSI scanner: framed packets, one section reassembler per PID, and the PAT that decides
// which PMT PIDs are listened to.
module PsiScanner {
  import opened Helpers
  import opened Ts
  import F = PsiFraming
  import S = PsiSections

  const PAT_PID: nat := 0x0000
  const CAT_PID: nat := 0x0001
  const SDT_PID: nat := 0x0011

  // A section handed to the table reader of its PID.
  datatype Delivery = Delivery(pid: nat, section: seq<Byte>)

  datatype Tables = Tables(sections: map<nat, S.SectionState>, programs: map<nat, nat>, log: seq<Delivery>)

  const NO_TABLES := Tables(map[], map[], [])

  ghost predicate Valid(t: Tables) {
    forall pid :: pid in t.sections ==> S.Ok(t.sections[pid])
  }

  function StateOf(t: Tables, pid: nat): S.SectionState {
    if pid in t.sections then t.sections[pid] else S.IDLE
  }

  predicate IsPmtPid(programs: map<nat, nat>, pid: nat) {
    exists sid :: sid in programs && programs[sid] == pid
  }

  predicate Accepted(t: Tables, pid: nat) {
    pid == PAT_PID || pid == CAT_PID || pid == SDT_PID || IsPmtPid(t.programs, pid)
  }

  // ----- One packet -------------------------------------------------------------------

  // The payload bytes; empty for adaptation-only packets and oversized adaptation fields.
  function PayloadOf(p: seq<Byte>): (payload: seq<Byte>)
    requires IsPacket(p)
    ensures |payload| <= 184
  {
    if Afc(p) == 1 then p[4..]
    else if Afc(p) == 3 && 5 + p[4] < PACKET then p[5 + p[4]..]
    else []
  }

  predicate Usable(p: seq<Byte>)
    requires IsPacket(p)
  {
    p[0] == SYNC && !Tei(p) && PayloadOf(p) != []
  }

  function Deliveries(pid: nat, sections: seq<seq<Byte>>): seq<Delivery> {
    seq(|sections|, i requires 0 <= i < |sections| => Delivery(pid, sections[i]))
  }

  // The PAT entries, four bytes each; program 0 is the network PID and is skipped.
  function Entries(programs: map<nat, nat>, region: seq<Byte>): map<nat, nat>
    decreases |region|
  {
    if |region| < 4 then programs
    else
      var program := region[0] as int * 256 + region[1] as int;
      var pid := region[2] as int % 32 * 256 + region[3] as int;
      Entries(if program != 0 then programs[program := pid] else programs, region[4..])
  }

  function ParsePat(programs: map<nat, nat>, section: seq<Byte>): map<nat, nat> {
    if |section| < 12 || section[0] != 0 then programs else Entries(programs, section[8..|section| - 4])
  }

  function ParsePats(programs: map<nat, nat>, sections: seq<seq<Byte>>): map<nat, nat>
    decreases |sections|
  {
    if sections == [] then programs else ParsePats(ParsePat(programs, sections[0]), sections[1..])
  }

  function AfterPacket(t: Tables, p: seq<Byte>): (t': Tables)
    requires Valid(t) && IsPacket(p)
    ensures Valid(t')
  {
    if Usable(p) && Accepted(t, Pid(p)) then
      var step := S.FeedSection(StateOf(t, Pid(p)), PayloadOf(p), PayloadStart(p));
      Tables(t.sections[Pid(p) := step.state],
             if Pid(p) == PAT_PID then ParsePats(t.programs, step.delivered) else t.programs,
             t.log + Deliveries(Pid(p), step.delivered))
    else t
  }

  predicate AllPackets(packets: seq<seq<Byte>>) {
    forall i :: 0 <= i < |packets| ==> IsPacket(packets[i])
  }

  function ParseAll(t: Tables, packets: seq<seq<Byte>>): (t': Tables)
    requires Valid(t) && AllPackets(packets)
    ensures Valid(t')
    decreases |packets|
  {
    if packets == [] then t else ParseAll(AfterPacket(t, packets[0]), packets[1..])
  }

  // ----- Every PID on its own ----------------------------------------------------------------

  // The payloads of one PID, in order.
  function Own(packets: seq<seq<Byte>>, pid: nat): (units: seq<S.Unit>)
    requires AllPackets(packets)
    decreases |packets|
  {
    if packets == [] then []
    else
      (if Usable(packets[0]) && Pid(packets[0]) == pid
       then [S.Unit(PayloadStart(packets[0]), PayloadOf(packets[0]))] else [])
      + Own(packets[1..], pid)
  }

  // The sections of one PID in a log, in order.
  function Of(log: seq<Delivery>, pid: nat): (sections: seq<seq<Byte>>)
    decreases |log|
  {
    if log == [] then []
    else (if log[0].pid == pid then [log[0].section] else []) + Of(log[1..], pid)
  }

  lemma {:induction false} OfConcat(a: seq<Delivery>, b: seq<Delivery>, pid: nat)
    ensures Of(a + b, pid) == Of(a, pid) + Of(b, pid)
    decreases |a|
  {
    if a == [] {
      assert a + b == b;
    } else {
      assert (a + b)[1..] == a[1..] + b;
      OfConcat(a[1..], b, pid);
    }
  }

  lemma {:induction false} OfDeliveries(at: nat, sections: seq<seq<Byte>>, pid: nat)
    ensures Of(Deliveries(at, sections), pid) == if at == pid then sections else []
    decreases |sections|
  {
    if sections != [] {
      assert Deliveries(at, sections)[1..] == Deliveries(at, sections[1..]);
      OfDeliveries(at, sections[1..], pid);
    }
  }

  // The scanner listens to the PID whenever a packet of it arrives.
  ghost predicate Listening(t: Tables, packets: seq<seq<Byte>>, pid: nat)
    requires Valid(t) && AllPackets(packets)
    decreases |packets|
  {
    packets == []
    || ((Pid(packets[0]) == pid ==> Accepted(t, pid)) && Listening(AfterPacket(t, packets[0]), packets[1..], pid))
  }

  // One packet changes the reassembler and the log of its own PID only.
  lemma OnePacket(t: Tables, p: seq<Byte>, pid: nat)
    requires Valid(t) && IsPacket(p) && (Pid(p) == pid ==> Accepted(t, pid))
    ensures S.Ok(StateOf(t, pid))
    ensures var t' := AfterPacket(t, p);
            if Usable(p) && Pid(p) == pid then
              var step := S.FeedSection(StateOf(t, pid), PayloadOf(p), PayloadStart(p));
              StateOf(t', pid) == step.state && Of(t'.log, pid) == Of(t.log, pid) + step.delivered
            else StateOf(t', pid) == StateOf(t, pid) && Of(t'.log, pid) == Of(t.log, pid)
  {
    if Usable(p) && Accepted(t, Pid(p)) {
      var step := S.FeedSection(StateOf(t, Pid(p)), PayloadOf(p), PayloadStart(p));
      OfConcat(t.log, Deliveries(Pid(p), step.delivered), pid);
      OfDeliveries(Pid(p), step.delivered, pid);
    }
  }

  // MAIN: however the PIDs are interleaved, a PID that is listened to is reassembled as if its
  // payloads were alone.
  lemma {:induction false} PidsAreIndependent(t: Tables, packets: seq<seq<Byte>>, pid: nat)
    requires Valid(t) && AllPackets(packets) && Listening(t, packets, pid)
    ensures S.Ok(StateOf(t, pid))
    ensures var t' := ParseAll(t, packets);
            var r := S.FeedUnits(StateOf(t, pid), Own(packets, pid));
            StateOf(t', pid) == r.state && Of(t'.log, pid) == Of(t.log, pid) + r.delivered
    decreases |packets|
  {
    if packets != [] {
      var p, more := packets[0], packets[1..];
      var u := AfterPacket(t, p);
      OnePacket(t, p, pid);
      PidsAreIndependent(u, more, pid);
      if Usable(p) && Pid(p) == pid {
        FirstUnit(StateOf(t, pid), S.Unit(PayloadStart(p), PayloadOf(p)), Own(more, pid), Of(t.log, pid));
      } else {
        assert Own(packets, pid) == Own(more, pid);
      }
    }
  }

  lemma FirstUnit(st: S.SectionState, unit: S.Unit, units: seq<S.Unit>, before: seq<seq<Byte>>)
    requires S.Ok(st)
    ensures var step := S.FeedSection(st, unit.payload, unit.start);
            var r := S.FeedUnits(step.state, units);
            var all := S.FeedUnits(st, [unit] + units);
            all.state == r.state && before + all.delivered == (before + step.delivered) + r.delivered
  {
    assert ([unit] + units)[1..] == units;
  }

  lemma {:induction false} AlwaysListening(t: Tables, packets: seq<seq<Byte>>, pid: nat)
    requires Valid(t) && AllPackets(packets)
    requires pid == PAT_PID || pid == CAT_PID || pid == SDT_PID
    ensures Listening(t, packets, pid)
    decreases |packets|
  {
    if packets != [] { AlwaysListening(AfterPacket(t, packets[0]), packets[1..], pid); }
  }

  predicate Maps(programs: map<nat, nat>, sid: nat, pid: nat) {
    sid in programs && programs[sid] == pid
  }

  // A section that does not move the program to another PID.
  ghost predicate KeepsProgram(section: seq<Byte>, sid: nat, pid: nat) {
    forall m: map<nat, nat> :: Maps(m, sid, pid) ==> Maps(ParsePat(m, section), sid, pid)
  }

  lemma {:induction false} SectionsKeepProgram(m: map<nat, nat>, sections: seq<seq<Byte>>, sid: nat, pid: nat)
    requires Maps(m, sid, pid) && forall i :: 0 <= i < |sections| ==> KeepsProgram(sections[i], sid, pid)
    ensures Maps(ParsePats(m, sections), sid, pid)
    decreases |sections|
  {
    if sections != [] { SectionsKeepProgram(ParsePat(m, sections[0]), sections[1..], sid, pid); }
  }

  // The sections the PAT packets of a run deliver.
  function PatSections(t: Tables, packets: seq<seq<Byte>>): seq<seq<Byte>>
    requires Valid(t) && AllPackets(packets)
  {
    S.FeedUnits(StateOf(t, PAT_PID), Own(packets, PAT_PID)).delivered
  }

  // A PMT PID is listened to over any run whose program association sections leave it in place.
  lemma {:induction false} ListeningToPmt(t: Tables, packets: seq<seq<Byte>>, sid: nat, pid: nat)
    requires Valid(t) && AllPackets(packets) && Maps(t.programs, sid, pid)
    requires forall i :: 0 <= i < |PatSections(t, packets)| ==> KeepsProgram(PatSections(t, packets)[i], sid, pid)
    ensures Listening(t, packets, pid)
    decreases |packets|
  {
    if packets != [] {
      var p, more := packets[0], packets[1..];
      var u := AfterPacket(t, p);
      OnePacket(t, p, PAT_PID);
      if Usable(p) && Pid(p) == PAT_PID {
        var step := S.FeedSection(StateOf(t, PAT_PID), PayloadOf(p), PayloadStart(p));
        FirstUnit(StateOf(t, PAT_PID), S.Unit(PayloadStart(p), PayloadOf(p)), Own(more, PAT_PID), []);
        assert PatSections(t, packets) == step.delivered + PatSections(u, more);
        ConcatParts(step.delivered, PatSections(u, more), sid, pid);
        SectionsKeepProgram(t.programs, step.delivered, sid, pid);
      } else {
        assert Own(packets, PAT_PID) == Own(more, PAT_PID);
        assert PatSections(t, packets) == PatSections(u, more);
      }
      ListeningToPmt(u, more, sid, pid);
    }
  }

  lemma ConcatParts(a: seq<seq<Byte>>, b: seq<seq<Byte>>, sid: nat, pid: nat)
    requires forall i :: 0 <= i < |a + b| ==> KeepsProgram((a + b)[i], sid, pid)
    ensures forall i :: 0 <= i < |a| ==> KeepsProgram(a[i], sid, pid)
    ensures forall i :: 0 <= i < |b| ==> KeepsProgram(b[i], sid, pid)
  {
    forall i | 0 <= i < |a| ensures KeepsProgram(a[i], sid, pid) { assert (a + b)[i] == a[i]; }
    forall i | 0 <= i < |b| ensures KeepsProgram(b[i], sid, pid) { assert (a + b)[|a| + i] == b[i]; }
  }

  // Whatever bytes arrive, only well-formed sections reach the table readers.
  ghost predicate LogIsWellFormed(t: Tables) {
    forall i :: 0 <= i < |t.log| ==> S.IsSection(t.log[i].section)
  }

  lemma {:induction false} OnlySectionsAreDelivered(t: Tables, packets: seq<seq<Byte>>)
    requires Valid(t) && AllPackets(packets) && LogIsWellFormed(t)
    ensures LogIsWellFormed(ParseAll(t, packets))
    decreases |packets|
  {
    if packets != [] {
      var p, u := packets[0], AfterPacket(t, packets[0]);
      S.OnlySectionsComeOut(StateOf(t, Pid(p)), PayloadOf(p), PayloadStart(p));
      assert LogIsWellFormed(u);
      OnlySectionsAreDelivered(u, packets[1..]);
    }
  }

  // ----- Bytes in, tables out ----------------------------------------------------------------

  datatype Scanner = Scanner(remainder: seq<Byte>, tables: Tables)

  const NEW := Scanner([], NO_TABLES)

  function AfterFeed(s: Scanner, data: seq<Byte>): (s': Scanner)
    requires Valid(s.tables)
    ensures Valid(s'.tables)
  {
    if data == [] then s
    else
      var f := F.Frame(s.remainder + data);
      Scanner(f.rest, ParseAll(s.tables, f.packets))
  }

  function FeedAll(s: Scanner, chunks: seq<seq<Byte>>): (s': Scanner)
    requires Valid(s.tables)
    ensures Valid(s'.tables)
    decreases |chunks|
  {
    if chunks == [] then s else FeedAll(AfterFeed(s, chunks[0]), chunks[1..])
  }

  lemma {:induction false} ParseConcat(t: Tables, a: seq<seq<Byte>>, b: seq<seq<Byte>>)
    requires Valid(t) && AllPackets(a) && AllPackets(b)
    ensures AllPackets(a + b)
    ensures ParseAll(t, a + b) == ParseAll(ParseAll(t, a), b)
    decreases |a|
  {
    if a == [] {
      assert a + b == b;
    } else {
      assert (a + b)[1..] == a[1..] + b;
      ParseConcat(AfterPacket(t, a[0]), a[1..], b);
    }
  }

  // The scanner is the framer with the packets parsed.
  lemma {:induction false} ScannerFollowsFramer(s: Scanner, f: F.Framed, chunks: seq<seq<Byte>>)
    requires AllPackets(f.packets) && s == Scanner(f.rest, ParseAll(NO_TABLES, f.packets))
    ensures AllPackets(F.FeedChunks(f, chunks).packets)
    ensures var g := F.FeedChunks(f, chunks); FeedAll(s, chunks) == Scanner(g.rest, ParseAll(NO_TABLES, g.packets))
    decreases |chunks|
  {
    if chunks != [] {
      if chunks[0] != [] {
        ParseConcat(NO_TABLES, f.packets, F.Frame(f.rest + chunks[0]).packets);
      }
      ScannerFollowsFramer(AfterFeed(s, chunks[0]), F.FeedBytes(f, chunks[0]), chunks[1..]);
    }
  }

  // MAIN: the split of the byte stream over calls never shows in the tables.
  lemma TablesIgnoreChunking(chunks: seq<seq<Byte>>, others: seq<seq<Byte>>)
    requires Concat(chunks) == Concat(others)
    ensures var s, u := FeedAll(NEW, chunks), FeedAll(NEW, others);
            && s.tables == u.tables
            && F.DropToSync(s.remainder) == F.DropToSync(u.remainder)
            && |s.remainder| < PACKET && |u.remainder| < PACKET
  {
    var start := F.Framed([], []);
    ScannerFollowsFramer(NEW, start, chunks);
    ScannerFollowsFramer(NEW, start, others);
    F.FramingIgnoresChunking(chunks, others);
  }

  // A payload sequence that packetises `sections`, from a boundary to a boundary.
  ghost predicate Packetises(units: seq<S.Unit>, sections: seq<seq<Byte>>, cuts: seq<S.Cut>) {
    var s := S.Sender([], [], sections);
    && S.AllSections(sections)
    && S.LegalRun(s, cuts)
    && S.EndOf(s, cuts) == S.Sender([], [], [])
    && units == S.Units(s, cuts)
  }

  ghost function HeaderCuts(sections: seq<seq<Byte>>, cuts: seq<S.Cut>): nat
    requires S.LegalRun(S.Sender([], [], sections), cuts)
  {
    S.StraddleCount(S.Sender([], [], sections), cuts)
  }

  // MAIN: from any state in which a PID is idle and listened to, the sections packetised on it are
  // parsed in order, whatever is interleaved, exactly when no payload start cuts a section header.
  lemma SectionsAreParsed(t: Tables, packets: seq<seq<Byte>>, pid: nat, sections: seq<seq<Byte>>, cuts: seq<S.Cut>)
    requires Valid(t) && AllPackets(packets) && StateOf(t, pid) == S.IDLE && Listening(t, packets, pid)
    requires Packetises(Own(packets, pid), sections, cuts)
    ensures var u := ParseAll(t, packets);
            && StateOf(u, pid) == S.IDLE
            && (Of(u.log, pid) == Of(t.log, pid) + sections <==> HeaderCuts(sections, cuts) == 0)
            && |Of(u.log, pid)| == |Of(t.log, pid)| + |sections| - HeaderCuts(sections, cuts)
  {
    PidsAreIndependent(t, packets, pid);
    S.ReassemblyInvertsPacketisation(sections, cuts);
    var before, r := Of(t.log, pid), S.FeedUnits(S.IDLE, Own(packets, pid));
    if before + r.delivered == before + sections {
      assert (before + r.delivered)[|before|..] == r.delivered;
      assert (before + sections)[|before|..] == sections;
    }
  }

  // MAIN: from the start of a byte stream fed in any pieces.
  lemma ScannerInvertsPacketisation(
      chunks: seq<seq<Byte>>, packets: seq<seq<Byte>>, pid: nat, sections: seq<seq<Byte>>, cuts: seq<S.Cut>)
    requires AllPackets(packets) && (forall i :: 0 <= i < |packets| ==> packets[i][0] == SYNC)
    requires Concat(chunks) == Concat(packets)
    requires Listening(NO_TABLES, packets, pid) && Packetises(Own(packets, pid), sections, cuts)
    ensures var t := FeedAll(NEW, chunks).tables;
            && t == ParseAll(NO_TABLES, packets)
            && StateOf(t, pid) == S.IDLE
            && (Of(t.log, pid) == sections <==> HeaderCuts(sections, cuts) == 0)
            && |Of(t.log, pid)| == |sections| - HeaderCuts(sections, cuts)
  {
    ScannerFollowsFramer(NEW, F.Framed([], []), chunks);
    F.PacketsComeBack(packets, chunks);
    SectionsAreParsed(NO_TABLES, packets, pid, sections, cuts);
    assert Of(NO_TABLES.log, pid) + sections == sections;
  }

  // ----- The program association table ---------------------------------------------------------

  // An entry as section 2.4.4.3 of ISO/IEC 13818-1 lays it out, with any reserved bits.
  datatype Program = Program(number: nat, pid: nat, reserved: nat)

  predicate ValidPrograms(programs: seq<Program>) {
    forall i :: 0 <= i < |programs| ==>
      programs[i].number < 65536 && programs[i].pid < PIDS && programs[i].reserved < 8
  }

  function EntryBytes(p: Program): (bytes: seq<Byte>)
    requires p.number < 65536 && p.pid < PIDS && p.reserved < 8
    ensures |bytes| == 4
  {
    [p.number / 256, p.number % 256, p.reserved * 32 + p.pid / 256, p.pid % 256]
  }

  function AllEntryBytes(programs: seq<Program>): (bytes: seq<Byte>)
    requires ValidPrograms(programs)
    ensures |bytes| == 4 * |programs|
    decreases |programs|
  {
    if programs == [] then [] else EntryBytes(programs[0]) + AllEntryBytes(programs[1..])
  }

  // Later entries win; the network entry assigns nothing.
  function Assigned(m: map<nat, nat>, programs: seq<Program>): map<nat, nat>
    decreases |programs|
  {
    if programs == [] then m
    else Assigned(if programs[0].number == 0 then m else m[programs[0].number := programs[0].pid], programs[1..])
  }

  lemma EntryRoundTrip(p: Program)
    requires p.number < 65536 && p.pid < PIDS && p.reserved < 8
    ensures var e := EntryBytes(p);
            && e[0] as int * 256 + e[1] as int == p.number
            && e[2] as int % 32 * 256 + e[3] as int == p.pid
  {
    assert (p.reserved * 32 + p.pid / 256) % 32 == p.pid / 256;
  }

  lemma {:induction false} EntriesRoundTrip(m: map<nat, nat>, programs: seq<Program>)
    requires ValidPrograms(programs)
    ensures Entries(m, AllEntryBytes(programs)) == Assigned(m, programs)
    decreases |programs|
  {
    if programs != [] {
      var e, region := EntryBytes(programs[0]), AllEntryBytes(programs);
      EntryRoundTrip(programs[0]);
      assert region[0] == e[0] && region[1] == e[1] && region[2] == e[2] && region[3] == e[3];
      assert region[4..] == AllEntryBytes(programs[1..]);
      EntriesRoundTrip(if programs[0].number == 0 then m else m[programs[0].number := programs[0].pid], programs[1..]);
    }
  }

  // MAIN: reading a program association section assigns exactly the programs it lists.
  lemma PatRoundTrip(m: map<nat, nat>, head: seq<Byte>, programs: seq<Program>, crc: seq<Byte>)
    requires |head| == 8 && head[0] == 0 && |crc| == 4 && ValidPrograms(programs)
    ensures ParsePat(m, head + AllEntryBytes(programs) + crc) == Assigned(m, programs)
  {
    var section := head + AllEntryBytes(programs) + crc;
    assert section[8..|section| - 4] == AllEntryBytes(programs);
    EntriesRoundTrip(m, programs);
  }

  lemma {:induction false} AssignedKeeps(m: map<nat, nat>, programs: seq<Program>, sid: nat, pid: nat)
    requires Maps(m, sid, pid)
    requires forall i :: 0 <= i < |programs| && programs[i].number == sid ==> programs[i].pid == pid
    ensures Maps(Assigned(m, programs), sid, pid)
    decreases |programs|
  {
    if programs != [] {
      var first := programs[0];
      AssignedKeeps(if first.number == 0 then m else m[first.number := first.pid], programs[1..], sid, pid);
    }
  }

  // A repeated or updated association table that does not move a program keeps its PMT listened to.
  lemma PatKeepsProgram(head: seq<Byte>, programs: seq<Program>, crc: seq<Byte>, sid: nat, pid: nat)
    requires |head| == 8 && head[0] == 0 && |crc| == 4 && ValidPrograms(programs)
    requires forall i :: 0 <= i < |programs| && programs[i].number == sid ==> programs[i].pid == pid
    ensures KeepsProgram(head + AllEntryBytes(programs) + crc, sid, pid)
  {
    var section := head + AllEntryBytes(programs) + crc;
    forall m: map<nat, nat> | Maps(m, sid, pid) ensures Maps(ParsePat(m, section), sid, pid) {
      PatRoundTrip(m, head, programs, crc);
      AssignedKeeps(m, programs, sid, pid);
    }
  }

  // ----- The scanner object ---------------------------------------------------------------------

  // The loop of parsePat over the positions of the entries.
  method ReadPat(section: seq<Byte>, before: map<nat, nat>) returns (programs: map<nat, nat>)
    ensures programs == ParsePat(before, section)
  {
    programs := before;
    if |section| < 12 || section[0] != 0 { return; }
    var end := |section| - 4;
    var pos := 8;
    while pos + 4 <= end
      invariant 8 <= pos <= end
      invariant Entries(programs, section[pos..end]) == Entries(before, section[8..end])
    {
      ghost var region := section[pos..end];
      assert region[4..] == section[pos + 4..end];
      assert region[0] == section[pos] && region[1] == section[pos + 1];
      assert region[2] == section[pos + 2] && region[3] == section[pos + 3];
      var program := section[pos] as int * 256 + section[pos + 1] as int;
      var pid := section[pos + 2] as int % 32 * 256 + section[pos + 3] as int;
      if program != 0 { programs := programs[program := pid]; }
      pos := pos + 4;
    }
  }

  class PsiScanner {
    var remainder: seq<Byte>
    var sections: map<nat, S.SectionState>
    var programMap: map<nat, nat>
    ghost var log: seq<Delivery>        // the sections handed to the table readers

    ghost function View(): Tables
      reads this
    {
      Tables(sections, programMap, log)
    }

    constructor ()
      ensures Scanner(remainder, View()) == NEW
    {
      remainder, sections, programMap, log := [], map[], map[], [];
    }

    // parseSection: a PAT section updates the program map; every section is logged.
    method ParseSections(pid: nat, delivered: seq<seq<Byte>>)
      modifies this`programMap, this`log
      ensures programMap == if pid == PAT_PID then ParsePats(old(programMap), delivered) else old(programMap)
      ensures log == old(log) + Deliveries(pid, delivered)
    {
      log := log + Deliveries(pid, delivered);
      if pid != PAT_PID { return; }
      var i := 0;
      while i < |delivered|
        invariant 0 <= i <= |delivered|
        invariant ParsePats(programMap, delivered[i..]) == ParsePats(old(programMap), delivered)
        modifies this`programMap
      {
        assert delivered[i..][1..] == delivered[i + 1..];
        programMap := ReadPat(delivered[i], programMap);
        i := i + 1;
      }
    }

    method ParsePacket(packet: seq<Byte>)
      requires Valid(View()) && IsPacket(packet)
      modifies this`sections, this`programMap, this`log
      ensures Valid(View()) && View() == AfterPacket(old(View()), packet)
    {
      if packet[0] != SYNC || packet[1] >= 0x80 { return; }
      var pid := Pid(packet);
      if pid != PAT_PID && pid != CAT_PID && pid != SDT_PID && !IsPmtPid(programMap, pid) { return; }
      var adaptation := Afc(packet);
      if adaptation == 0 || adaptation == 2 { return; }
      var offset := 4;
      if adaptation == 3 {
        offset := offset + packet[4] + 1;
        if offset >= PACKET { return; }
      }
      assert packet[offset..] == PayloadOf(packet);
      FeedPid(pid, packet[offset..], PayloadStart(packet));
    }

    // feedSection on the state of one PID.
    method FeedPid(pid: nat, payload: seq<Byte>, start: bool)
      requires Valid(View())
      modifies this`sections, this`programMap, this`log
      ensures Valid(View())
      ensures var step := S.FeedSection(old(StateOf(View(), pid)), payload, start);
              && sections == old(sections)[pid := step.state]
              && programMap == (if pid == PAT_PID then ParsePats(old(programMap), step.delivered) else old(programMap))
              && log == old(log) + Deliveries(pid, step.delivered)
    {
      var state := if pid in sections then sections[pid] else S.IDLE;
      var delivered;
      state, delivered := S.ReassemblePayload(state, payload, start);
      sections := sections[pid := state];
      ParseSections(pid, delivered);
    }

    method Feed(data: seq<Byte>)
      requires Valid(View())
      modifies this
      ensures Valid(View())
      ensures Scanner(remainder, View()) == AfterFeed(Scanner(old(remainder), old(View())), data)
    {
      if data == [] { return; }
      remainder := remainder + data;
      var offset := 0;
      ghost var t := View();
      assert remainder[0..] == remainder;
      while |remainder| - offset >= PACKET
        invariant 0 <= offset <= |remainder|
        invariant remainder == old(remainder) + data
        invariant Valid(View())
        invariant Scanner(F.Frame(remainder[offset..]).rest, ParseAll(View(), F.Frame(remainder[offset..]).packets))
               == Scanner(F.Frame(remainder).rest, ParseAll(t, F.Frame(remainder).packets))
        decreases |remainder| - offset
      {
        if remainder[offset] != SYNC {
          var next := FindSync(remainder, offset + 1);
          SkipNoise(remainder, offset);
          if next == |remainder| {
            remainder := [];
            return;
          }
          offset := next;
        } else {
          FirstPacket(View(), remainder, offset);
          ParsePacket(remainder[offset..offset + PACKET]);
          offset := offset + PACKET;
        }
      }
      if offset != 0 { remainder := remainder[offset..]; }
    }
  }

  lemma SkipNoise(s: seq<Byte>, offset: nat)
    requires offset + PACKET <= |s| && s[offset] != SYNC
    ensures var next := F.NextSync(s, offset + 1);
            F.Frame(s[offset..]) == if next == |s| then F.Framed([], []) else F.Frame(s[next..])
  {
    var next := F.NextSync(s, offset + 1);
    F.NextSyncShift(s, offset + 1, offset);
    assert s[offset..][next - offset..] == s[next..];
  }

  lemma FirstPacket(t: Tables, s: seq<Byte>, offset: nat)
    requires Valid(t) && offset + PACKET <= |s| && s[offset] == SYNC
    ensures var f, g := F.Frame(s[offset..]), F.Frame(s[offset + PACKET..]);
            && f.rest == g.rest
            && ParseAll(t, f.packets) == ParseAll(AfterPacket(t, s[offset..offset + PACKET]), g.packets)
  {
    var left, p := s[offset..], s[offset..offset + PACKET];
    assert left[..PACKET] == p;
    assert left[PACKET..] == s[offset + PACKET..];
    var more := F.Frame(s[offset + PACKET..]).packets;
    assert ([p] + more)[0] == p && ([p] + more)[1..] == more;
  }

  method FindSync(s: seq<Byte>, from: nat) returns (k: nat)
    requires from <= |s|
    ensures k == F.NextSync(s, from)
  {
    k := from;
    while k < |s| && s[k] != SYNC
      invariant from <= k <= |s| && F.NextSync(s, k) == F.NextSync(s, from)
    {
      k := k + 1;
    }
  }
}
