// Reassembly of PSI sections from the payloads of one PID, and the packetiser it inverts
// (section 2.4.4 of ISO/IEC 13818-1).
module PsiSections {
  import opened Helpers
  import opened Ts

  const SHORTEST: nat := 8
  const LONGEST: nat := 4096
  const STUFFING: Byte := 0xFF

  // The size a section header declares.
  function Declared(s: seq<Byte>): nat
    requires |s| >= 3
  {
    3 + (s[1] as int) % 16 * 256 + s[2] as int
  }

  predicate IsSection(s: seq<Byte>) {
    SHORTEST <= |s| <= LONGEST && s[0] != STUFFING && Declared(s) == |s|
  }

  // The open section of a PID; `expected` is 0 until its three header bytes are there.
  datatype SectionState = SectionState(bytes: seq<Byte>, expected: nat)

  const IDLE := SectionState([], 0)

  predicate Ok(st: SectionState) {
    && (st.bytes != [] ==> st.bytes[0] != STUFFING)
    && (if st.expected == 0 then |st.bytes| < 3
        else 3 <= |st.bytes| < st.expected && st.expected == Declared(st.bytes) && SHORTEST <= st.expected <= LONGEST)
  }

  datatype Step = Step(state: SectionState, delivered: seq<seq<Byte>>)

  predicate AllSections(ss: seq<seq<Byte>>) {
    forall i :: 0 <= i < |ss| ==> IsSection(ss[i])
  }

  // ----- The receiver ---------------------------------------------------------------

  // The loop of feedSection over the bytes after the pointer. Whatever the payload is, the
  // open section stays shorter than it declares.
  function Consume(st: SectionState, data: seq<Byte>): (r: Step)
    requires Ok(st)
    ensures Ok(r.state)
    decreases |data|, 1
  {
    if data == [] then Step(st, [])
    else if st.bytes != [] then
      if st.expected == 0 then
        var take := Min(3 - |st.bytes|, |data|);
        var head := st.bytes + data[..take];
        if |head| < 3 then Step(SectionState(head, 0), [])
        else
          var expected := Declared(head);
          if expected < SHORTEST || expected > LONGEST then Step(IDLE, [])
          else Fill(SectionState(head, expected), data[take..])
      else Fill(st, data)
    else if data[0] == STUFFING then Step(IDLE, [])
    else if |data| < 3 then Step(SectionState(data, 0), [])
    else
      var total := Declared(data);
      if total < SHORTEST || total > LONGEST then Step(IDLE, [])
      else if |data| >= total then
        var r := Consume(IDLE, data[total..]);
        assert Declared(data[..total]) == total;
        Step(r.state, [data[..total]] + r.delivered)
      else Step(SectionState(data, total), [])
  }

  // The rest of a section whose size is known.
  function Fill(st: SectionState, data: seq<Byte>): (r: Step)
    requires Ok(st) && st.expected != 0
    ensures Ok(r.state)
    decreases |data|, 0
  {
    var take := Min(st.expected - |st.bytes|, |data|);
    var bytes := st.bytes + data[..take];
    if |bytes| >= st.expected then
      var r := Consume(IDLE, data[take..]);
      Step(r.state, [bytes] + r.delivered)
    else Step(SectionState(bytes, st.expected), [])
  }

  // What appendSection hands on; it always leaves the PID idle.
  function Append(st: SectionState, data: seq<Byte>): (delivered: seq<seq<Byte>>)
    requires Ok(st)
    ensures AllSections(delivered)
  {
    if st.bytes != [] && st.expected != 0 then
      var bytes := st.bytes + data[..Min(|data|, st.expected - |st.bytes|)];
      if |bytes| >= st.expected then [bytes] else []
    else []
  }

  function FeedSection(st: SectionState, payload: seq<Byte>, start: bool): (r: Step)
    requires Ok(st)
    ensures Ok(r.state)
  {
    if payload == [] then Step(st, [])
    else if start then
      var pointer := payload[0];
      var first :=
        if st.bytes != [] && pointer != 0 && 1 + pointer <= |payload| then Append(st, payload[1..1 + pointer]) else [];
      var r := Consume(IDLE, if 1 + pointer <= |payload| then payload[1 + pointer..] else []);
      Step(r.state, first + r.delivered)
    else Consume(st, payload)
  }

  lemma {:induction false} ConsumeDelivers(st: SectionState, data: seq<Byte>)
    requires Ok(st)
    ensures AllSections(Consume(st, data).delivered)
    decreases |data|, 1
  {
    if data == [] {
    } else if st.bytes != [] {
      if st.expected == 0 {
        var take := Min(3 - |st.bytes|, |data|);
        var head := st.bytes + data[..take];
        if |head| == 3 && SHORTEST <= Declared(head) <= LONGEST {
          FillDelivers(SectionState(head, Declared(head)), data[take..]);
        }
      } else {
        FillDelivers(st, data);
      }
    } else if data[0] != STUFFING && |data| >= 3 {
      var total := Declared(data);
      if SHORTEST <= total <= |data| && total <= LONGEST {
        ConsumeDelivers(IDLE, data[total..]);
        DeclaredByPrefix(data, total);
      }
    }
  }

  lemma {:induction false} FillDelivers(st: SectionState, data: seq<Byte>)
    requires Ok(st) && st.expected != 0
    ensures AllSections(Fill(st, data).delivered)
    decreases |data|, 0
  {
    var take := Min(st.expected - |st.bytes|, |data|);
    var bytes := st.bytes + data[..take];
    if |bytes| >= st.expected {
      ConsumeDelivers(IDLE, data[take..]);
      assert bytes[..|st.bytes|] == st.bytes;
      DeclaredByPrefix(bytes, |st.bytes|);
    }
  }

  // MAIN: whatever the payload is, only well-formed sections are delivered.
  lemma OnlySectionsComeOut(st: SectionState, payload: seq<Byte>, start: bool)
    requires Ok(st)
    ensures AllSections(FeedSection(st, payload, start).delivered)
  {
    if payload != [] {
      if start {
        var pointer := payload[0];
        ConsumeDelivers(IDLE, if 1 + pointer <= |payload| then payload[1 + pointer..] else []);
      } else {
        ConsumeDelivers(st, payload);
      }
    }
  }

  datatype Unit = Unit(start: bool, payload: seq<Byte>)

  function FeedUnits(st: SectionState, units: seq<Unit>): (r: Step)
    requires Ok(st)
    ensures Ok(r.state)
    decreases |units|
  {
    if units == [] then Step(st, [])
    else
      var one := FeedSection(st, units[0].payload, units[0].start);
      var r := FeedUnits(one.state, units[1..]);
      Step(r.state, one.delivered + r.delivered)
  }

  // ----- The packetiser ----------------------------------------------------------------

  // A sender inside (or between) sections: the bytes sent and left of the open section, and
  // the sections still to come.
  datatype Sender = Sender(sent: seq<Byte>, left: seq<Byte>, todo: seq<seq<Byte>>)

  // One payload. A payload start carries a pointer over the rest of the open section, or over
  // `filler` when none is open. Once the open section is complete, `whole` sections follow, and
  // then either the first `part` bytes of the next one or stuffing.
  datatype Cut = Cut(start: bool, filler: seq<Byte>, take: nat, whole: nat, part: nat, stuffing: seq<Byte>)

  predicate Between(s: Sender) { s.sent == [] }

  predicate ValidSender(s: Sender) {
    && AllSections(s.todo)
    && (s.sent == [] <==> s.left == [])
    && (s.sent != [] ==> IsSection(s.sent + s.left))
  }

  function Lead(s: Sender, c: Cut): seq<Byte> {
    if Between(s) then c.filler else s.left
  }

  // Does the payload complete the open section (if any)?
  predicate Finishes(s: Sender, c: Cut) {
    c.start || c.take == |s.left|
  }

  predicate Legal(s: Sender, c: Cut) {
    && (c.start ==> |Lead(s, c)| < 256)
    && (!c.start ==> c.take <= |s.left|)
    && (!Finishes(s, c) ==> c.whole == 0 && c.part == 0 && c.stuffing == [])
    && c.whole <= |s.todo|
    && (c.part > 0 ==> c.whole < |s.todo| && c.part < |s.todo[c.whole]| && c.stuffing == [])
    && (c.stuffing != [] ==> c.stuffing[0] == STUFFING)
  }

  // What follows the open section in a payload.
  function Body(todo: seq<seq<Byte>>, c: Cut): seq<Byte>
    requires c.whole <= |todo| && (c.part > 0 ==> c.whole < |todo| && c.part < |todo[c.whole]|)
  {
    Concat(todo[..c.whole]) + (if c.part > 0 then todo[c.whole][..c.part] else c.stuffing)
  }

  function Payload(s: Sender, c: Cut): seq<Byte>
    requires Legal(s, c)
  {
    if c.start then [|Lead(s, c)| as Byte] + Lead(s, c) + Body(s.todo, c)
    else if c.take == |s.left| then s.left + Body(s.todo, c)
    else s.left[..c.take]
  }

  function Opened(todo: seq<seq<Byte>>, c: Cut): Sender
    requires c.whole <= |todo| && (c.part > 0 ==> c.whole < |todo| && c.part < |todo[c.whole]|)
  {
    if c.part > 0 then Sender(todo[c.whole][..c.part], todo[c.whole][c.part..], todo[c.whole + 1..])
    else Sender([], [], todo[c.whole..])
  }

  function After(s: Sender, c: Cut): Sender
    requires Legal(s, c)
  {
    if Finishes(s, c) then Opened(s.todo, c)
    else Sender(s.sent + s.left[..c.take], s.left[c.take..], s.todo)
  }

  // The section header is cut by a payload start.
  predicate Straddles(s: Sender, c: Cut) {
    c.start && 0 < |s.sent| < 3
  }

  // The sections a payload completes, without one whose header a payload start cuts.
  function Completed(s: Sender, c: Cut): seq<seq<Byte>>
    requires Legal(s, c)
  {
    if Finishes(s, c) then
      (if Between(s) || Straddles(s, c) then [] else [s.sent + s.left]) + s.todo[..c.whole]
    else []
  }

  ghost predicate LegalRun(s: Sender, cuts: seq<Cut>)
    decreases |cuts|
  {
    cuts == [] || (Legal(s, cuts[0]) && LegalRun(After(s, cuts[0]), cuts[1..]))
  }

  ghost function Units(s: Sender, cuts: seq<Cut>): (units: seq<Unit>)
    requires LegalRun(s, cuts)
    decreases |cuts|
  {
    if cuts == [] then [] else [Unit(cuts[0].start, Payload(s, cuts[0]))] + Units(After(s, cuts[0]), cuts[1..])
  }

  ghost function EndOf(s: Sender, cuts: seq<Cut>): Sender
    requires LegalRun(s, cuts)
    decreases |cuts|
  {
    if cuts == [] then s else EndOf(After(s, cuts[0]), cuts[1..])
  }

  ghost function AllCompleted(s: Sender, cuts: seq<Cut>): seq<seq<Byte>>
    requires LegalRun(s, cuts)
    decreases |cuts|
  {
    if cuts == [] then [] else Completed(s, cuts[0]) + AllCompleted(After(s, cuts[0]), cuts[1..])
  }

  ghost function StraddleCount(s: Sender, cuts: seq<Cut>): nat
    requires LegalRun(s, cuts)
    decreases |cuts|
  {
    if cuts == [] then 0
    else (if Straddles(s, cuts[0]) then 1 else 0) + StraddleCount(After(s, cuts[0]), cuts[1..])
  }

  // ----- Receiver and sender in step ------------------------------------------------------

  // What the receiver holds while the sender is in `s`.
  function Holding(s: Sender): SectionState {
    SectionState(s.sent, if |s.sent| < 3 then 0 else |s.sent| + |s.left|)
  }

  lemma HoldingIsOk(s: Sender)
    requires ValidSender(s)
    ensures Ok(Holding(s))
  {
    if s.sent != [] {
      assert (s.sent + s.left)[0] == s.sent[0];
      if |s.sent| >= 3 { DeclaredByPrefix(s.sent + s.left, |s.sent|); }
    }
  }

  lemma DeclaredByPrefix(s: seq<Byte>, n: nat)
    requires 3 <= n <= |s|
    ensures Declared(s[..n]) == Declared(s)
  {
  }

  // A whole section at the front of an idle PID is delivered at once.
  lemma ConsumeWhole(sec: seq<Byte>, more: seq<Byte>)
    requires IsSection(sec)
    ensures var r := Consume(IDLE, more);
            Consume(IDLE, sec + more) == Step(r.state, [sec] + r.delivered)
  {
    var data := sec + more;
    assert data[0] == sec[0] && data[1] == sec[1] && data[2] == sec[2];
    assert data[..|sec|] == sec && data[|sec|..] == more;
  }

  lemma ConsumePart(sec: seq<Byte>, part: nat)
    requires IsSection(sec) && 0 < part < |sec|
    ensures Consume(IDLE, sec[..part]) == Step(Holding(Sender(sec[..part], sec[part..], [])), [])
  {
    if part >= 3 { DeclaredByPrefix(sec, part); }
  }

  lemma BodyOfNone(todo: seq<seq<Byte>>, c: Cut)
    requires c.whole == 0 && (c.part > 0 ==> |todo| > 0 && c.part < |todo[0]|)
    ensures Body(todo, c) == if c.part > 0 then todo[0][..c.part] else c.stuffing
  {
    assert todo[..0] == [];
  }

  lemma BodyOfMore(todo: seq<seq<Byte>>, c: Cut, d: Cut)
    requires 0 < c.whole <= |todo| && (c.part > 0 ==> c.whole < |todo| && c.part < |todo[c.whole]|)
    requires d == c.(whole := c.whole - 1)
    ensures Body(todo, c) == todo[0] + Body(todo[1..], d)
    ensures todo[..c.whole] == [todo[0]] + todo[1..][..d.whole]
    ensures Opened(todo, c) == Opened(todo[1..], d)
  {
    assert todo[..c.whole][1..] == todo[1..][..d.whole];
    var tail := if c.part > 0 then todo[c.whole][..c.part] else c.stuffing;
    assert (todo[0] + Concat(todo[1..][..d.whole])) + tail == todo[0] + (Concat(todo[1..][..d.whole]) + tail);
  }

  lemma {:induction false} ConsumeBody(todo: seq<seq<Byte>>, c: Cut)
    requires AllSections(todo)
    requires c.whole <= |todo| && (c.part > 0 ==> c.whole < |todo| && c.part < |todo[c.whole]| && c.stuffing == [])
    requires c.stuffing != [] ==> c.stuffing[0] == STUFFING
    ensures Consume(IDLE, Body(todo, c)) == Step(Holding(Opened(todo, c)), todo[..c.whole])
    decreases c.whole
  {
    if c.whole == 0 {
      BodyOfNone(todo, c);
      if c.part > 0 { ConsumePart(todo[0], c.part); }
    } else {
      var d := c.(whole := c.whole - 1);
      BodyOfMore(todo, c, d);
      ConsumeBody(todo[1..], d);
      ConsumeWhole(todo[0], Body(todo[1..], d));
    }
  }

  // Part of the rest of the open section: nothing is delivered.
  lemma ConsumeSome(s: Sender, take: nat)
    requires ValidSender(s) && take < |s.left|
    ensures Ok(Holding(s))
    ensures Consume(Holding(s), s.left[..take])
         == Step(Holding(Sender(s.sent + s.left[..take], s.left[take..], s.todo)), [])
  {
    HoldingIsOk(s);
    var data := s.left[..take];
    var sec := s.sent + s.left;
    if take > 0 {
      if |s.sent| < 3 {
        var n := Min(3 - |s.sent|, take);
        assert s.sent + data[..n] == sec[..|s.sent| + n];
        if |s.sent| + n == 3 {
          DeclaredByPrefix(sec, 3);
          assert sec[..3] + data[n..] == s.sent + data;
          assert data[n..][..|data| - n] == data[n..];
        } else {
          assert data[..n] == data;
        }
      } else {
        assert data[..take] == data;
      }
    } else {
      assert s.sent + data == s.sent && s.left[take..] == s.left;
    }
  }

  // A header completed inside a payload.
  lemma ConsumeHeader(sec: seq<Byte>, n: nat, more: seq<Byte>)
    requires IsSection(sec) && 0 < n < 3
    ensures Ok(SectionState(sec[..n], 0)) && Ok(SectionState(sec[..3], |sec|))
    ensures Consume(SectionState(sec[..n], 0), sec[n..] + more) == Fill(SectionState(sec[..3], |sec|), sec[3..] + more)
  {
    var data := sec[n..] + more;
    assert sec[..n] + data[..3 - n] == sec[..3];
    assert data[3 - n..] == sec[3..] + more;
    DeclaredByPrefix(sec, 3);
  }

  // The rest of the open section and something after it.
  lemma ConsumeRest(s: Sender, more: seq<Byte>)
    requires ValidSender(s) && !Between(s)
    ensures Ok(Holding(s))
    ensures var r := Consume(IDLE, more);
            Consume(Holding(s), s.left + more) == Step(r.state, [s.sent + s.left] + r.delivered)
  {
    HoldingIsOk(s);
    var sec, n := s.sent + s.left, |s.sent|;
    assert sec[..n] == s.sent && sec[n..] == s.left;
    if n < 3 {
      ConsumeHeader(sec, n, more);
      FillRest(sec, 3, more);
    } else {
      FillRest(sec, n, more);
    }
  }

  lemma FillRest(sec: seq<Byte>, n: nat, more: seq<Byte>)
    requires IsSection(sec) && 3 <= n < |sec|
    ensures Ok(SectionState(sec[..n], |sec|))
    ensures var r := Consume(IDLE, more);
            Fill(SectionState(sec[..n], |sec|), sec[n..] + more) == Step(r.state, [sec] + r.delivered)
  {
    DeclaredByPrefix(sec, n);
    var data := sec[n..] + more;
    assert data[..|sec| - n] == sec[n..] && data[|sec| - n..] == more;
    assert sec[..n] + sec[n..] == sec;
  }

  lemma AfterIsValid(s: Sender, c: Cut)
    requires ValidSender(s) && Legal(s, c)
    ensures ValidSender(After(s, c))
  {
    if Finishes(s, c) {
      if c.part > 0 { Rejoin(s.todo[c.whole], c.part); }
    } else {
      assert (s.sent + s.left[..c.take]) + s.left[c.take..] == s.sent + s.left;
    }
  }

  lemma Rejoin(sec: seq<Byte>, n: nat)
    requires n <= |sec|
    ensures sec[..n] + sec[n..] == sec
  {
  }

  lemma StartUnit(s: Sender, c: Cut)
    requires ValidSender(s) && Legal(s, c) && c.start
    ensures Ok(Holding(s))
    ensures FeedSection(Holding(s), Payload(s, c), true) == Step(Holding(After(s, c)), Completed(s, c))
  {
    HoldingIsOk(s);
    var lead := Lead(s, c);
    var payload := Payload(s, c);
    assert payload[0] as int == |lead|;
    assert payload[1..1 + |lead|] == lead;
    assert payload[1 + |lead|..] == Body(s.todo, c);
    ConsumeBody(s.todo, c);
    if |s.sent| >= 3 {
      assert lead[..|lead|] == lead;
    }
  }

  // One payload: the receiver delivers what the packetiser completes, and holds what it opened.
  lemma UnitInStep(s: Sender, c: Cut)
    requires ValidSender(s) && Legal(s, c)
    ensures Ok(Holding(s))
    ensures FeedSection(Holding(s), Payload(s, c), c.start) == Step(Holding(After(s, c)), Completed(s, c))
  {
    HoldingIsOk(s);
    if c.start {
      StartUnit(s, c);
    } else if c.take == |s.left| {
      ConsumeBody(s.todo, c);
      if Between(s) {
        assert s.left + Body(s.todo, c) == Body(s.todo, c);
        assert [] + s.todo[..c.whole] == s.todo[..c.whole];
      } else {
        ConsumeRest(s, Body(s.todo, c));
      }
    } else {
      ConsumeSome(s, c.take);
    }
  }

  lemma {:induction false} RunInStep(s: Sender, cuts: seq<Cut>)
    requires ValidSender(s) && LegalRun(s, cuts)
    ensures Ok(Holding(s))
    ensures FeedUnits(Holding(s), Units(s, cuts)) == Step(Holding(EndOf(s, cuts)), AllCompleted(s, cuts))
    decreases |cuts|
  {
    HoldingIsOk(s);
    if cuts != [] {
      UnitInStep(s, cuts[0]);
      AfterIsValid(s, cuts[0]);
      RunInStep(After(s, cuts[0]), cuts[1..]);
      assert Units(s, cuts)[1..] == Units(After(s, cuts[0]), cuts[1..]);
    }
  }

  // ----- What is delivered ------------------------------------------------------------------

  // The sections a sender still owes, the open one first.
  function Owed(s: Sender): seq<seq<Byte>> {
    (if Between(s) then [] else [s.sent + s.left]) + s.todo
  }

  lemma OwedOpened(todo: seq<seq<Byte>>, c: Cut)
    requires c.whole <= |todo| && (c.part > 0 ==> c.whole < |todo| && c.part < |todo[c.whole]|)
    ensures todo == todo[..c.whole] + Owed(Opened(todo, c))
  {
    if c.part > 0 {
      Rejoin(todo[c.whole], c.part);
      assert todo[c.whole..] == [todo[c.whole]] + todo[c.whole + 1..];
    }
  }

  lemma OwedUnfinished(s: Sender, c: Cut)
    requires s.sent != [] && Legal(s, c) && !Finishes(s, c)
    ensures Owed(After(s, c)) == Owed(s)
  {
    assert (s.sent + s.left[..c.take]) + s.left[c.take..] == s.sent + s.left;
  }

  lemma OwedFinished(s: Sender, c: Cut)
    requires Legal(s, c) && Finishes(s, c)
    ensures !Straddles(s, c) ==> Owed(s) == Completed(s, c) + Owed(After(s, c))
    ensures |Owed(s)| == |Completed(s, c)| + |Owed(After(s, c))| + (if Straddles(s, c) then 1 else 0)
  {
    OwedOpened(s.todo, c);
    Associate(if Between(s) then [] else [s.sent + s.left], s.todo[..c.whole], Owed(Opened(s.todo, c)));
  }

  lemma OwedAfter(s: Sender, c: Cut)
    requires ValidSender(s) && Legal(s, c)
    ensures !Straddles(s, c) ==> Owed(s) == Completed(s, c) + Owed(After(s, c))
    ensures |Owed(s)| == |Completed(s, c)| + |Owed(After(s, c))| + (if Straddles(s, c) then 1 else 0)
  {
    if Finishes(s, c) {
      OwedFinished(s, c);
    } else {
      OwedUnfinished(s, c);
    }
  }

  lemma {:induction false} CompletedCount(s: Sender, cuts: seq<Cut>)
    requires ValidSender(s) && LegalRun(s, cuts)
    ensures |AllCompleted(s, cuts)| + StraddleCount(s, cuts) + |Owed(EndOf(s, cuts))| == |Owed(s)|
    ensures StraddleCount(s, cuts) == 0 ==> AllCompleted(s, cuts) + Owed(EndOf(s, cuts)) == Owed(s)
    decreases |cuts|
  {
    if cuts != [] {
      var t := After(s, cuts[0]);
      OwedAfter(s, cuts[0]);
      AfterIsValid(s, cuts[0]);
      CompletedCount(t, cuts[1..]);
      Associate(Completed(s, cuts[0]), AllCompleted(t, cuts[1..]), Owed(EndOf(t, cuts[1..])));
    }
  }

  // MAIN: sections cut into payloads in any legal way come out whole and in order exactly when
  // no payload start cuts a section header; each such cut loses exactly that one section.
  lemma ReassemblyInvertsPacketisation(sections: seq<seq<Byte>>, cuts: seq<Cut>)
    requires AllSections(sections)
    requires LegalRun(Sender([], [], sections), cuts)
    requires EndOf(Sender([], [], sections), cuts) == Sender([], [], [])
    ensures var s := Sender([], [], sections);
            var r := FeedUnits(IDLE, Units(s, cuts));
            && r.state == IDLE
            && (r.delivered == sections <==> StraddleCount(s, cuts) == 0)
            && |r.delivered| == |sections| - StraddleCount(s, cuts)
  {
    var s := Sender([], [], sections);
    RunInStep(s, cuts);
    CompletedCount(s, cuts);
    assert Owed(s) == sections;
    assert |Owed(EndOf(s, cuts))| == 0;
    assert AllCompleted(s, cuts) + Owed(EndOf(s, cuts)) == AllCompleted(s, cuts);
  }

  // ----- Every section list can be sent in packet payloads ----------------------------------

  const ROOM: nat := 184

  // A run without cut headers whose payloads fit transport packets.
  ghost predicate Sendable(s: Sender, cuts: seq<Cut>, end: Sender) {
    && LegalRun(s, cuts) && EndOf(s, cuts) == end && StraddleCount(s, cuts) == 0
    && forall i :: 0 <= i < |Units(s, cuts)| ==> 0 < |Units(s, cuts)[i].payload| <= ROOM
  }

  lemma SendFirst(s: Sender, c: Cut, cuts: seq<Cut>, end: Sender)
    requires Legal(s, c) && !Straddles(s, c) && 0 < |Payload(s, c)| <= ROOM
    requires Sendable(After(s, c), cuts, end)
    ensures Sendable(s, [c] + cuts, end)
  {
    var all := [c] + cuts;
    assert all[1..] == cuts;
    var units := Units(After(s, c), cuts);
    assert Units(s, all) == [Unit(c.start, Payload(s, c))] + units;
  }

  // The rest of a section, a packet at a time, and then `cuts`.
  function Rest(left: nat, cuts: seq<Cut>): seq<Cut>
    decreases left
  {
    if left <= ROOM then [Cut(false, [], left, 0, 0, [])] + cuts
    else [Cut(false, [], ROOM, 0, 0, [])] + Rest(left - ROOM, cuts)
  }

  function OneByOne(sections: seq<seq<Byte>>): seq<Cut>
    decreases |sections|
  {
    if sections == [] then []
    else if |sections[0]| < ROOM then [Cut(true, [], 0, 1, 0, [])] + OneByOne(sections[1..])
    else [Cut(true, [], 0, 0, ROOM - 1, [])] + Rest(|sections[0]| - (ROOM - 1), OneByOne(sections[1..]))
  }

  lemma {:induction false} RestIsSendable(s: Sender, cuts: seq<Cut>, end: Sender)
    requires s.sent != [] && s.left != [] && Sendable(Sender([], [], s.todo), cuts, end)
    ensures Sendable(s, Rest(|s.left|, cuts), end)
    decreases |s.left|
  {
    if |s.left| <= ROOM {
      var c := Cut(false, [], |s.left|, 0, 0, []);
      assert Concat(s.todo[..0]) == [];
      assert s.todo[0..] == s.todo;
      assert s.left + ([] + []) == s.left;
      SendFirst(s, c, cuts, end);
    } else {
      var c := Cut(false, [], ROOM, 0, 0, []);
      RestIsSendable(After(s, c), cuts, end);
      SendFirst(s, c, Rest(|s.left| - ROOM, cuts), end);
    }
  }

  // Every list of sections has a run in packet-sized payloads that loses none of them.
  lemma {:induction false} SectionsAreSendable(sections: seq<seq<Byte>>)
    requires AllSections(sections)
    ensures Sendable(Sender([], [], sections), OneByOne(sections), Sender([], [], []))
    decreases |sections|
  {
    if sections != [] {
      var s, sec, more := Sender([], [], sections), sections[0], sections[1..];
      SectionsAreSendable(more);
      if |sec| < ROOM {
        var c := Cut(true, [], 0, 1, 0, []);
        assert sections[..1][1..] == [];
        assert Concat(sections[..1]) == sec + [];
        assert |Payload(s, c)| == 1 + |sec|;
        SendFirst(s, c, OneByOne(more), Sender([], [], []));
      } else {
        var c := Cut(true, [], 0, 0, ROOM - 1, []);
        assert Concat(sections[..0]) == [];
        assert |Payload(s, c)| == ROOM;
        RestIsSendable(After(s, c), OneByOne(more), Sender([], [], []));
        SendFirst(s, c, Rest(|sec| - (ROOM - 1), OneByOne(more)), Sender([], [], []));
      }
    }
  }

  lemma FeedTwo(st: SectionState, a: Unit, b: Unit)
    requires Ok(st)
    ensures var r := FeedSection(st, a.payload, a.start);
            var q := FeedSection(r.state, b.payload, b.start);
            FeedUnits(st, [a, b]) == Step(q.state, r.delivered + q.delivered)
  {
    var r := FeedSection(st, a.payload, a.start);
    var q := FeedSection(r.state, b.payload, b.start);
    assert [a, b][1..] == [b];
    assert FeedUnits(q.state, [b][1..]) == Step(q.state, []);
    assert FeedUnits(r.state, [b]) == Step(q.state, q.delivered + []);
    assert q.delivered + [] == q.delivered;
  }

  lemma TwoBytesAreKept()
    ensures FeedSection(IDLE, [0, 0, 0], true) == Step(SectionState([0, 0], 0), [])
  {
    var payload: seq<Byte> := [0, 0, 0];
    assert payload[1..] == [0, 0];
  }

  // A header cut by a payload start: the eight-byte section is lost.
  lemma HeaderStraddleLosesSection()
    ensures IsSection([0, 0, 5, 1, 2, 3, 4, 5])
    ensures FeedUnits(IDLE, [Unit(true, [0, 0, 0]), Unit(true, [6, 5, 1, 2, 3, 4, 5])]) == Step(IDLE, [])
  {
    var rest: seq<Byte> := [6, 5, 1, 2, 3, 4, 5];
    TwoBytesAreKept();
    assert rest[7..] == [];
    FeedTwo(IDLE, Unit(true, [0, 0, 0]), Unit(true, rest));
  }

  // ----- The loop of the source ----------------------------------------------------------

  method AppendSection(st: SectionState, data: seq<Byte>) returns (delivered: seq<seq<Byte>>)
    requires Ok(st)
    ensures delivered == Append(st, data)
  {
    delivered := [];
    if st.bytes != [] && st.expected != 0 {
      var take := Min(|data|, st.expected - |st.bytes|);
      var bytes := st.bytes + data[..take];
      if |bytes| >= st.expected {
        assert bytes[..st.expected] == bytes;
        delivered := [bytes[..st.expected]];
      }
    }
  }

  // The open section takes its header bytes, or nothing when its size is known already.
  method TakeHeader(st: SectionState, data: seq<Byte>) returns (st': SectionState, taken: nat, go: bool)
    requires Ok(st) && st.bytes != [] && data != []
    ensures Ok(st') && taken <= |data|
    ensures st.expected == 0 ==> taken > 0
    ensures go ==> st'.expected != 0 && Consume(st, data) == Fill(st', data[taken..])
    ensures !go ==> Consume(st, data) == Step(st', [])
  {
    st', taken, go := st, 0, true;
    if st.expected == 0 {
      var headerNeeded := if |st.bytes| < 3 then 3 - |st.bytes| else 0;
      taken := Min(headerNeeded, |data|);
      var bytes := st.bytes + data[..taken];
      if |bytes| < 3 { return SectionState(bytes, 0), taken, false; }
      var expected := Declared(bytes);
      if expected < SHORTEST || expected > LONGEST { return IDLE, taken, false; }
      st' := SectionState(bytes, expected);
    }
  }

  // The open section takes what it still needs; a completed one is delivered.
  method TakeBody(st: SectionState, data: seq<Byte>) returns (st': SectionState, taken: nat, delivered: seq<seq<Byte>>)
    requires Ok(st) && st.expected != 0
    ensures Ok(st') && taken <= |data|
    ensures data != [] ==> taken > 0
    ensures var r := Consume(st', data[taken..]); Fill(st, data) == Step(r.state, delivered + r.delivered)
  {
    var needed := if st.expected > |st.bytes| then st.expected - |st.bytes| else 0;
    taken := Min(needed, |data|);
    var bytes := st.bytes + data[..taken];
    if |bytes| >= st.expected {
      delivered := [bytes[..st.expected]];
      st' := IDLE;
      assert bytes[..st.expected] == bytes;
    } else {
      delivered := [];
      st' := SectionState(bytes, st.expected);
      assert data[taken..] == [];
    }
  }

  // feedSection: the payload loop of the source refines the specification.
  method ReassemblePayload(st0: SectionState, payload: seq<Byte>, start: bool)
    returns (st: SectionState, delivered: seq<seq<Byte>>)
    requires Ok(st0)
    ensures Step(st, delivered) == FeedSection(st0, payload, start)
  {
    st, delivered := st0, [];
    if payload == [] { return; }
    var offset := 0;
    if start {
      var pointer := payload[0];
      offset := 1;
      if st.bytes != [] && pointer != 0 && offset + pointer <= |payload| {
        delivered := AppendSection(st, payload[offset..offset + pointer]);
      }
      offset := offset + pointer;
      st := IDLE;
      if offset > |payload| { return; }
    } else {
      assert payload[0..] == payload;
    }
    delivered, st := ConsumeFrom(payload, offset, st, delivered);
  }

  // One turn of the loop: either it ends the payload or it leaves the rest of it to do.
  ghost predicate Turn(st: SectionState, data: seq<Byte>, st': SectionState, taken: nat,
                       completed: seq<seq<Byte>>, last: bool)
  {
    && Ok(st) && Ok(st')
    && if last then Consume(st, data) == Step(st', completed)
       else
         && 0 < taken <= |data|
         && var r := Consume(st', data[taken..]);
            Consume(st, data) == Step(r.state, completed + r.delivered)
  }

  method OpenTurn(st: SectionState, data: seq<Byte>)
    returns (st': SectionState, taken: nat, completed: seq<seq<Byte>>, last: bool)
    requires Ok(st) && st.bytes != [] && data != []
    ensures Turn(st, data, st', taken, completed, last)
  {
    completed := [];
    var header, go;
    st', header, go := TakeHeader(st, data);
    if !go { return st', header, [], true; }
    var body;
    st', body, completed := TakeBody(st', data[header..]);
    ghost var r := Consume(st', data[header..][body..]);
    assert Consume(st, data) == Step(r.state, completed + r.delivered);
    SliceOfSlice(data, header, body);
    taken, last := header + body, false;
  }

  method IdleTurn(data: seq<Byte>)
    returns (st': SectionState, taken: nat, completed: seq<seq<Byte>>, last: bool)
    requires data != []
    ensures Turn(IDLE, data, st', taken, completed, last)
  {
    st', taken, completed, last := IDLE, 0, [], true;
    if data[0] == STUFFING { return; }
    if |data| < 3 { return SectionState(data, 0), 0, [], true; }
    var total := Declared(data);
    if total < SHORTEST || total > LONGEST { return; }
    if |data| >= total { return IDLE, total, [data[..total]], false; }
    st' := SectionState(data, total);
  }

  method ConsumeFrom(payload: seq<Byte>, start: nat, st0: SectionState, before: seq<seq<Byte>>)
    returns (delivered: seq<seq<Byte>>, st: SectionState)
    requires Ok(st0) && start <= |payload|
    ensures var r := Consume(st0, payload[start..]); st == r.state && delivered == before + r.delivered
  {
    var offset := start;
    st, delivered := st0, before;
    ghost var goal := Consume(st0, payload[start..]);
    while offset < |payload|
      invariant start <= offset <= |payload| && Ok(st)
      invariant Consume(st, payload[offset..]).state == goal.state
      invariant delivered + Consume(st, payload[offset..]).delivered == before + goal.delivered
      decreases |payload| - offset
    {
      var st', taken, completed, last;
      if st.bytes != [] {
        st', taken, completed, last := OpenTurn(st, payload[offset..]);
      } else {
        st', taken, completed, last := IdleTurn(payload[offset..]);
      }
      if last { return delivered + completed, st'; }
      SliceOfSlice(payload, offset, taken);
      Associate(delivered, completed, Consume(st', payload[offset + taken..]).delivered);
      st, offset, delivered := st', offset + taken, delivered + completed;
    }
    assert payload[offset..] == [];
    assert delivered + [] == delivered;
  }

  lemma SliceOfSlice(s: seq<Byte>, i: nat, j: nat)
    requires i + j <= |s|
    ensures s[i..][j..] == s[i + j..]
  {
  }
}
