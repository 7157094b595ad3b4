// Sections and packets written out byte by byte, independently of how the scanner reads them.
module PsiPrinted {
  // Every printed section is one, and printed tables come back from printed packets.
  import opened Helpers
  import opened Ts
  import S = PsiSections
  import P = PsiScanner

  // ----- Sections ------------------------------------------------------------------------

  // A table section: its id, the four bits beside the length, and what the length counts.
  datatype Table = Table(id: Byte, bits: nat, body: seq<Byte>)

  predicate Printable(t: Table) {
    t.id != 0xFF && t.bits < 16 && 5 <= |t.body| <= 4093
  }

  function Print(t: Table): seq<Byte>
    requires Printable(t)
  {
    [t.id, t.bits * 16 + |t.body| / 256, |t.body| % 256] + t.body
  }

  lemma PrintedIsSection(t: Table)
    requires Printable(t)
    ensures S.IsSection(Print(t)) && |Print(t)| == |t.body| + 3 && S.Declared(Print(t)) == |t.body| + 3
  {
    var s, n := Print(t), |t.body|;
    LengthReads(t.bits, n);
    assert s[0] == t.id && s[1] == t.bits * 16 + n / 256 && s[2] == n % 256 && |s| == n + 3;
  }

  lemma LengthReads(bits: nat, n: nat)
    requires n < 4096
    ensures (bits * 16 + n / 256) % 16 == n / 256 && n / 256 * 256 + n % 256 == n
  {
  }

  lemma SectionIsPrinted(s: seq<Byte>) returns (t: Table)
    requires S.IsSection(s)
    ensures Printable(t) && Print(t) == s
  {
    t := Table(s[0], s[1] / 16, s[3..]);
    assert s == [s[0], s[1], s[2]] + s[3..];
  }

  // MAIN: the sections are exactly the printed ones.
  lemma SectionsAreThePrinted(s: seq<Byte>)
    ensures S.IsSection(s) <==> exists t :: Printable(t) && Print(t) == s
  {
    if S.IsSection(s) { var t := SectionIsPrinted(s); }
    forall t | Printable(t) && Print(t) == s ensures S.IsSection(s) { PrintedIsSection(t); }
  }

  // Different tables print differently.
  lemma PrintedDiffer(t: Table, u: Table)
    requires Printable(t) && Printable(u) && Print(t) == Print(u)
    ensures t == u
  {
    assert Print(t)[3..] == t.body && Print(u)[3..] == u.body;
    assert Print(t)[0] == t.id && Print(u)[0] == u.id && Print(t)[1] == Print(u)[1];
  }

  // Only the association table moves programs.
  lemma OtherTablesKeepPrograms(m: map<nat, nat>, t: Table)
    requires Printable(t) && t.id != 0
    ensures P.ParsePat(m, Print(t)) == m
  {
  }

  predicate AllPrintable(tables: seq<Table>) {
    forall i :: 0 <= i < |tables| ==> Printable(tables[i])
  }

  function PrintAll(tables: seq<Table>): (sections: seq<seq<Byte>>)
    requires AllPrintable(tables)
    ensures |sections| == |tables| && forall i :: 0 <= i < |tables| ==> sections[i] == Print(tables[i])
  {
    seq(|tables|, i requires 0 <= i < |tables| => Print(tables[i]))
  }

  lemma PrintedAreSections(tables: seq<Table>)
    requires AllPrintable(tables)
    ensures S.AllSections(PrintAll(tables))
  {
    forall i | 0 <= i < |tables| ensures S.IsSection(PrintAll(tables)[i]) { PrintedIsSection(tables[i]); }
  }

  // MAIN: printed tables cut into payloads in any legal way come out whole and in order exactly when no
  // payload start cuts the three header bytes of one.
  lemma PrintedTablesComeBack(tables: seq<Table>, cuts: seq<S.Cut>)
    requires AllPrintable(tables)
    requires var s := S.Sender([], [], PrintAll(tables));
             S.LegalRun(s, cuts) && S.EndOf(s, cuts) == S.Sender([], [], [])
    ensures var s := S.Sender([], [], PrintAll(tables));
            var r := S.FeedUnits(S.IDLE, S.Units(s, cuts));
            && r.state == S.IDLE
            && (r.delivered == PrintAll(tables) <==> S.StraddleCount(s, cuts) == 0)
            && |r.delivered| == |tables| - S.StraddleCount(s, cuts)
  {
    PrintedAreSections(tables);
    S.ReassemblyInvertsPacketisation(PrintAll(tables), cuts);
  }

  // ----- Packets ------------------------------------------------------------------------------

  // A packet header as section 2.4.3.2 of ISO/IEC 13818-1 lays it out, without a transport error.
  datatype Head = Head(start: bool, priority: nat, pid: nat, scrambling: nat, counter: nat)

  datatype Packet = Packet(head: Head, adaptation: Option<seq<Byte>>, payload: seq<Byte>)

  predicate ValidHead(h: Head) {
    h.priority < 2 && h.pid < 8192 && h.scrambling < 4 && h.counter < 16
  }

  // The payload fills what the adaptation field and its length byte leave of the 184 bytes.
  predicate ValidPacket(p: Packet) {
    ValidHead(p.head)
    && (if p.adaptation.Some? then |p.adaptation.value| + |p.payload| == 183 else |p.payload| == 184)
  }

  function HeadBytes(h: Head, control: nat): seq<Byte>
    requires ValidHead(h) && control < 4
  {
    [0x47, (if h.start then 64 else 0) + h.priority * 32 + h.pid / 256, h.pid % 256,
     h.scrambling * 64 + control * 16 + h.counter]
  }

  function PacketBytes(p: Packet): seq<Byte>
    requires ValidPacket(p)
  {
    if p.adaptation.Some?
    then HeadBytes(p.head, 3) + [|p.adaptation.value| as Byte] + p.adaptation.value + p.payload
    else HeadBytes(p.head, 1) + p.payload
  }

  lemma SecondByteReads(start: nat, priority: nat, high: nat)
    requires start < 2 && priority < 2 && high < 32
    ensures var b := start * 64 + priority * 32 + high; b % 32 == high && b / 64 % 2 == start && b < 128
  {
  }

  lemma FourthByteReads(scrambling: nat, control: nat, counter: nat)
    requires scrambling < 4 && control < 4 && counter < 16
    ensures (scrambling * 64 + control * 16 + counter) / 16 % 4 == control
  {
  }

  lemma HeadReads(h: Head, control: nat, b: seq<Byte>)
    requires ValidHead(h) && control < 4 && |b| == 188 && b[..4] == HeadBytes(h, control)
    ensures b[0] == SYNC && Pid(b) == h.pid && PayloadStart(b) == h.start && !Tei(b) && Afc(b) == control
  {
    assert b[0] == b[..4][0] && b[1] == b[..4][1] && b[2] == b[..4][2] && b[3] == b[..4][3];
    SecondByteReads(if h.start then 1 else 0, h.priority, h.pid / 256);
    FourthByteReads(h.scrambling, control, h.counter);
  }

  // MAIN: a printed packet is read as what was printed, with or without an adaptation field.
  lemma PacketReads(p: Packet)
    requires ValidPacket(p)
    ensures var b := PacketBytes(p);
            && IsPacket(b) && b[0] == SYNC && !Tei(b)
            && Pid(b) == p.head.pid && PayloadStart(b) == p.head.start && P.PayloadOf(b) == p.payload
  {
    var b := PacketBytes(p);
    if p.adaptation.Some? {
      var a := p.adaptation.value;
      assert b[..4] == HeadBytes(p.head, 3) && b[4] as int == |a|;
      HeadReads(p.head, 3, b);
      assert b[5 + |a|..] == p.payload;
    } else {
      assert b[..4] == HeadBytes(p.head, 1);
      HeadReads(p.head, 1, b);
      assert b[4..] == p.payload;
    }
  }

  // Packets without a sync byte, with a transport error, without a payload, or of a PID nobody listens
  // to change nothing.
  lemma OtherPacketsAreIgnored(t: P.Tables, p: seq<Byte>)
    requires P.Valid(t) && IsPacket(p)
    requires p[0] != 0x47 || p[1] >= 128 || (p[3] / 16) % 2 == 0
             || (Pid(p) !in {0, 1, 17} && Pid(p) !in t.programs.Values)
    ensures P.AfterPacket(t, p) == t
  {
  }

  // ----- A whole stream ----------------------------------------------------------------------------

  // A payload in a packet of its own, padded by an adaptation field.
  function UnitPacket(u: S.Unit, pid: nat, counter: nat): Packet {
    Packet(Head(u.start, 0, pid, 0, counter % 16),
           if |u.payload| < 184 then Some(seq(183 - |u.payload|, _ => 0)) else None, u.payload)
  }

  predicate Fits(units: seq<S.Unit>) {
    forall i :: 0 <= i < |units| ==> 0 < |units[i].payload| <= 184
  }

  function UnitPackets(units: seq<S.Unit>, pid: nat, counter: nat): (packets: seq<seq<Byte>>)
    requires Fits(units) && pid < 8192
    decreases |units|
  {
    if units == [] then []
    else
      assert ValidPacket(UnitPacket(units[0], pid, counter));
      [PacketBytes(UnitPacket(units[0], pid, counter))] + UnitPackets(units[1..], pid, counter + 1)
  }

  // Packets of one PID.
  predicate Only(packets: seq<seq<Byte>>, pid: nat) {
    forall i :: 0 <= i < |packets| ==> IsPacket(packets[i]) && packets[i][0] == SYNC && Pid(packets[i]) == pid
  }

  lemma {:induction false} UnitPacketsRead(units: seq<S.Unit>, pid: nat, counter: nat)
    requires Fits(units) && pid < 8192
    ensures var packets := UnitPackets(units, pid, counter);
            && P.AllPackets(packets) && Only(packets, pid) && P.Own(packets, pid) == units
    decreases |units|
  {
    if units != [] {
      var p := UnitPacket(units[0], pid, counter);
      PacketReads(p);
      UnitPacketsRead(units[1..], pid, counter + 1);
      var rest := UnitPackets(units[1..], pid, counter + 1);
      assert ([PacketBytes(p)] + rest)[1..] == rest;
      assert units == [units[0]] + units[1..];
    }
  }

  // The packets that carry some tables on a PID, one table a payload start.
  ghost function TablePackets(tables: seq<Table>, pid: nat): (packets: seq<seq<Byte>>)
    requires AllPrintable(tables) && pid < 8192
  {
    var sections := PrintAll(tables);
    PrintedAreSections(tables);
    S.SectionsAreSendable(sections);
    UnitPackets(S.Units(S.Sender([], [], sections), S.OneByOne(sections)), pid, 0)
  }

  lemma PrintedPackets(tables: seq<Table>, pid: nat)
    requires AllPrintable(tables) && pid < 8192
    ensures var sections := PrintAll(tables);
            var packets := TablePackets(tables, pid);
            && Only(packets, pid) && P.AllPackets(packets)
            && S.LegalRun(S.Sender([], [], sections), S.OneByOne(sections))
            && P.HeaderCuts(sections, S.OneByOne(sections)) == 0
            && P.Packetises(P.Own(packets, pid), sections, S.OneByOne(sections))
  {
    var sections := PrintAll(tables);
    PrintedAreSections(tables);
    S.SectionsAreSendable(sections);
    UnitPacketsRead(S.Units(S.Sender([], [], sections), S.OneByOne(sections)), pid, 0);
  }

  // MAIN: whatever tables are printed into packets of the PAT, CAT or SDT PID, and however the bytes are
  // split over calls, the scanner hands on exactly those sections.
  lemma PrintedTablesAreScanned(tables: seq<Table>, pid: nat, chunks: seq<seq<Byte>>)
    requires AllPrintable(tables) && (pid == 0 || pid == 1 || pid == 17)
    requires Concat(chunks) == Concat(TablePackets(tables, pid))
    ensures P.AllPackets(TablePackets(tables, pid))
    ensures P.FeedAll(P.NEW, chunks).tables == P.ParseAll(P.NO_TABLES, TablePackets(tables, pid))
    ensures P.Of(P.FeedAll(P.NEW, chunks).tables.log, pid) == PrintAll(tables)
  {
    var packets := TablePackets(tables, pid);
    PrintedPackets(tables, pid);
    P.AlwaysListening(P.NO_TABLES, packets, pid);
    P.ScannerInvertsPacketisation(chunks, packets, pid, PrintAll(tables), S.OneByOne(PrintAll(tables)));
  }

  // ----- Association tables ------------------------------------------------------------------------

  // A program association table: five bytes behind its length, the entries and a checksum.
  datatype Association = Association(bits: nat, head: seq<Byte>, programs: seq<P.Program>, crc: seq<Byte>)

  predicate ValidAssociation(a: Association) {
    && a.bits < 16 && |a.head| == 5 && |a.crc| == 4
    && P.ValidPrograms(a.programs) && |a.programs| <= 1021
  }

  function AsTable(a: Association): (t: Table)
    requires ValidAssociation(a)
    ensures Printable(t)
  {
    Table(0, a.bits, a.head + P.AllEntryBytes(a.programs) + a.crc)
  }

  predicate AllValid(list: seq<Association>) {
    forall i :: 0 <= i < |list| ==> ValidAssociation(list[i])
  }

  function AsTables(list: seq<Association>): (tables: seq<Table>)
    requires AllValid(list)
    ensures AllPrintable(tables)
  {
    seq(|list|, i requires 0 <= i < |list| => AsTable(list[i]))
  }

  // The programs some tables assign, later ones winning.
  function AllAssigned(m: map<nat, nat>, list: seq<Association>): map<nat, nat>
    decreases |list|
  {
    if list == [] then m else AllAssigned(P.Assigned(m, list[0].programs), list[1..])
  }

  lemma AssociationIsRead(m: map<nat, nat>, a: Association)
    requires ValidAssociation(a)
    ensures P.ParsePat(m, Print(AsTable(a))) == P.Assigned(m, a.programs)
  {
    var t := AsTable(a);
    var head := Print(t)[..3] + a.head;
    assert Print(t) == head + P.AllEntryBytes(a.programs) + a.crc;
    P.PatRoundTrip(m, head, a.programs, a.crc);
  }

  lemma {:induction false} AssociationsAreRead(m: map<nat, nat>, list: seq<Association>)
    requires AllValid(list)
    ensures P.ParsePats(m, PrintAll(AsTables(list))) == AllAssigned(m, list)
    decreases |list|
  {
    if list != [] {
      assert PrintAll(AsTables(list))[0] == Print(AsTable(list[0]));
      assert PrintAll(AsTables(list))[1..] == PrintAll(AsTables(list[1..]));
      AssociationIsRead(m, list[0]);
      AssociationsAreRead(P.Assigned(m, list[0].programs), list[1..]);
    }
  }

  lemma {:induction false} PatsConcat(m: map<nat, nat>, a: seq<seq<Byte>>, b: seq<seq<Byte>>)
    ensures P.ParsePats(m, a + b) == P.ParsePats(P.ParsePats(m, a), b)
    decreases |a|
  {
    if a == [] {
      assert a + b == b;
    } else {
      assert (a + b)[1..] == a[1..] + b;
      PatsConcat(P.ParsePat(m, a[0]), a[1..], b);
    }
  }

  // The programs are those the association sections of the log assign.
  predicate FollowsLog(t: P.Tables) { t.programs == P.ParsePats(map[], P.Of(t.log, 0)) }

  lemma PacketFollowsLog(t: P.Tables, p: seq<Byte>)
    requires P.Valid(t) && IsPacket(p) && FollowsLog(t)
    ensures FollowsLog(P.AfterPacket(t, p))
  {
    P.OnePacket(t, p, 0);
    if P.Usable(p) && Pid(p) == 0 {
      PatsConcat(map[], P.Of(t.log, 0), S.FeedSection(P.StateOf(t, 0), P.PayloadOf(p), PayloadStart(p)).delivered);
    }
  }

  lemma {:induction false} PacketsFollowLog(t: P.Tables, packets: seq<seq<Byte>>)
    requires P.Valid(t) && P.AllPackets(packets) && FollowsLog(t)
    ensures FollowsLog(P.ParseAll(t, packets))
    decreases |packets|
  {
    if packets != [] {
      PacketFollowsLog(t, packets[0]);
      PacketsFollowLog(P.AfterPacket(t, packets[0]), packets[1..]);
    }
  }

  // MAIN: whatever bytes are fed, the program map is what the association sections handed on so far assign.
  lemma {:induction false} ProgramsFollowLog(s: P.Scanner, chunks: seq<seq<Byte>>)
    requires P.Valid(s.tables) && FollowsLog(s.tables)
    ensures FollowsLog(P.FeedAll(s, chunks).tables)
    decreases |chunks|
  {
    if chunks != [] {
      if chunks[0] != [] { PacketsFollowLog(s.tables, P.F.Frame(s.remainder + chunks[0]).packets); }
      ProgramsFollowLog(P.AfterFeed(s, chunks[0]), chunks[1..]);
    }
  }

  // MAIN: association tables printed into packets and split over calls in any way give exactly the programs
  // they list.
  lemma PrintedProgramsAreKnown(list: seq<Association>, chunks: seq<seq<Byte>>)
    requires AllValid(list) && Concat(chunks) == Concat(TablePackets(AsTables(list), 0))
    ensures P.FeedAll(P.NEW, chunks).tables.programs == AllAssigned(map[], list)
  {
    PrintedTablesAreScanned(AsTables(list), 0, chunks);
    ProgramsFollowLog(P.NEW, chunks);
    AssociationsAreRead(map[], list);
  }

  // ----- Tables on an announced PID ------------------------------------------------------------------

  // Another PID sees nothing of these packets.
  lemma {:induction false} OthersSeeNothing(t: P.Tables, packets: seq<seq<Byte>>, pid: nat, other: nat)
    requires P.Valid(t) && Only(packets, pid) && other != pid
    ensures P.AllPackets(packets) && P.Own(packets, other) == [] && P.Listening(t, packets, other)
    decreases |packets|
  {
    if packets != [] { OthersSeeNothing(P.AfterPacket(t, packets[0]), packets[1..], pid, other); }
  }

  // Behind the packets of its association tables a PID is idle, and listened to over its own packets.
  lemma AnnouncedPidIsReady(list: seq<Association>, sid: nat, pid: nat, b: seq<seq<Byte>>) returns (t: P.Tables)
    requires AllValid(list) && 0 < pid < 8192 && P.Maps(AllAssigned(map[], list), sid, pid) && Only(b, pid)
    ensures P.AllPackets(TablePackets(AsTables(list), 0)) && P.AllPackets(b) && P.Valid(t)
    ensures t == P.ParseAll(P.NO_TABLES, TablePackets(AsTables(list), 0))
    ensures P.StateOf(t, pid) == S.IDLE && P.Of(t.log, pid) == [] && P.Listening(t, b, pid)
  {
    var a := TablePackets(AsTables(list), 0);
    PrintedPackets(AsTables(list), 0);
    t := P.ParseAll(P.NO_TABLES, a);
    assert Concat([Concat(a)]) == Concat(a);
    PrintedTablesAreScanned(AsTables(list), 0, [Concat(a)]);
    PrintedProgramsAreKnown(list, [Concat(a)]);
    OthersSeeNothing(P.NO_TABLES, a, 0, pid);
    P.PidsAreIndependent(P.NO_TABLES, a, pid);
    OthersSeeNothing(t, b, pid, 0);
    P.ListeningToPmt(t, b, sid, pid);
  }

  // MAIN: tables printed on a PID behind the association tables that announce it are handed on whole and
  // in order, however the bytes are split over calls.
  lemma AnnouncedTablesAreScanned(
      list: seq<Association>, sid: nat, tables: seq<Table>, pid: nat, chunks: seq<seq<Byte>>)
    requires AllValid(list) && 0 < pid < 8192 && P.Maps(AllAssigned(map[], list), sid, pid) && AllPrintable(tables)
    requires Concat(chunks) == Concat(TablePackets(AsTables(list), 0) + TablePackets(tables, pid))
    ensures P.Of(P.FeedAll(P.NEW, chunks).tables.log, pid) == PrintAll(tables)
  {
    var a, b := TablePackets(AsTables(list), 0), TablePackets(tables, pid);
    PrintedPackets(AsTables(list), 0);
    PrintedPackets(tables, pid);
    var t := AnnouncedPidIsReady(list, sid, pid, b);
    P.ParseConcat(P.NO_TABLES, a, b);
    P.ScannerFollowsFramer(P.NEW, P.F.Framed([], []), chunks);
    P.F.PacketsComeBack(a + b, chunks);
    P.SectionsAreParsed(t, b, pid, PrintAll(tables), S.OneByOne(PrintAll(tables)));
    assert [] + PrintAll(tables) == PrintAll(tables);
  }
}
