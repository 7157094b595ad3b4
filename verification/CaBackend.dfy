// Conditional-access sessions over shared plugin readers.
module CaBackend {
  // Every step is what one thread does while it holds the manager's mutex, or one plugin call made without it.
  import opened Helpers

  const PASSTHROUGH := "passthrough"

  // A loaded backend; `refs` counts the services that hold a reader.
  datatype Backend = Backend(builtin: bool, inplace: bool, refs: map<string, nat>)

  datatype Session = Session(
    reader: string, backend: string, passthrough: bool, active: bool, stopping: bool,
    calls: nat, bytes: nat, errors: nat, retries: nat)

  // A thread inside stopService: what it decided under the mutex and how far it has come.
  datatype Phase = BeforeStop | InStop | BeforeClose | InClose | BeforeErase

  datatype Teardown = Teardown(reader: string, backend: string, builtin: bool, close: bool, phase: Phase)

  // Plugin calls that took effect, and unloading.
  datatype Event =
    | Opened(backend: string, reader: string)
    | Closed(backend: string, reader: string)
    | Started(backend: string, stream: string)
    | Stopped(backend: string, stream: string)
    | Unloaded(ids: set<string>)

  datatype State = State(
    backends: map<string, Backend>, sessions: map<string, Session>,
    teardowns: map<string, Teardown>, log: seq<Event>)

  const INITIAL := State(map[PASSTHROUGH := Backend(true, false, map[])], map[], map[], [])

  datatype Reply = Done | Passed | Retry | Failed

  datatype Action =
    | Configure(plugins: map<string, bool>)
    | Start(stream: string, reader: string, backend: string, openOk: bool, reply: Reply)
    | MarkActive(stream: string)
    | StopBegin(stream: string)
    | Advance(stream: string)
    | Process(stream: string, size: nat, reply: Reply)

  // ----- Reader references ------------------------------------------------------------

  function Inc(refs: map<string, nat>, r: string): map<string, nat> {
    refs[r := (if r in refs then refs[r] else 0) + 1]
  }

  function Dec(refs: map<string, nat>, r: string): map<string, nat> {
    if r !in refs then refs else if refs[r] > 1 then refs[r := refs[r] - 1] else refs - {r}
  }

  // Dropping this reference closes the reader.
  predicate Closes(refs: map<string, nat>, r: string) {
    r in refs && refs[r] <= 1
  }

  // ----- Steps -------------------------------------------------------------------------

  function Key(id: string): string {
    if id == "" then PASSTHROUGH else id
  }

  function Builtins(backends: map<string, Backend>): map<string, Backend> {
    map id | id in backends && backends[id].builtin :: backends[id]
  }

  // Plugins with an empty id or the id of a loaded backend are rejected.
  function Fresh(plugins: map<string, bool>, taken: map<string, Backend>): map<string, Backend> {
    map id | id in plugins && id != "" && id !in taken :: Backend(false, plugins[id], map[])
  }

  function ConfigureStep(s: State, plugins: map<string, bool>): State {
    if s.sessions != map[] then s
    else
      var kept := Builtins(s.backends);
      s.(backends := kept + Fresh(plugins, kept), log := s.log + [Unloaded(s.backends.Keys - kept.Keys)])
  }

  function WithRefs(s: State, b: string, refs: map<string, nat>): State
    requires b in s.backends
  {
    s.(backends := s.backends[b := s.backends[b].(refs := refs)])
  }

  function NewSession(be: Backend, b: string, reader: string, reply: Reply): Session {
    Session(reader, b, be.builtin || reply == Passed || !be.inplace, false, false, 0, 0, 0, 0)
  }

  predicate Succeeds(reply: Reply) { reply == Done || reply == Passed }

  // The reader must be opened by this start.
  predicate MustOpen(be: Backend, reader: string) {
    !be.builtin && reader !in be.refs
  }

  function OpenEvents(be: Backend, b: string, reader: string): seq<Event> {
    if MustOpen(be, reader) then [Opened(b, reader)] else []
  }

  // The reader is held and the session registered.
  function Attach(s: State, stream: string, session: Session, events: seq<Event>): State
    requires session.backend in s.backends
  {
    WithRefs(s, session.backend, Inc(s.backends[session.backend].refs, session.reader)).(
      sessions := s.sessions[stream := session], log := s.log + events)
  }

  // The plugin refused the service: the reference just taken is dropped again.
  function RollBack(s: State, reader: string, b: string, events: seq<Event>): State
    requires b in s.backends
  {
    var held := Inc(s.backends[b].refs, reader);
    WithRefs(s, b, Dec(held, reader)).(log := s.log + events + if Closes(held, reader) then [Closed(b, reader)] else [])
  }

  // A start whose backend is loaded and whose reader is or can be opened.
  function StartOpened(s: State, stream: string, reader: string, b: string, reply: Reply): State
    requires b in s.backends
  {
    var be := s.backends[b];
    if be.builtin then Attach(s, stream, NewSession(be, b, reader, Done), [])
    else if Succeeds(reply) then
      Attach(s, stream, NewSession(be, b, reader, reply), OpenEvents(be, b, reader) + [Started(b, stream)])
    else RollBack(s, reader, b, OpenEvents(be, b, reader))
  }

  predicate CanStart(s: State, stream: string, reader: string, b: string, openOk: bool) {
    stream !in s.sessions && b in s.backends && (MustOpen(s.backends[b], reader) ==> openOk)
  }

  function StartStep(s: State, stream: string, reader: string, b: string, openOk: bool, reply: Reply): State {
    if CanStart(s, stream, reader, b, openOk) then StartOpened(s, stream, reader, b, reply) else s
  }

  function MarkActiveStep(s: State, stream: string): State {
    if stream in s.sessions && !s.sessions[stream].stopping
    then s.(sessions := s.sessions[stream := s.sessions[stream].(active := true)])
    else s
  }

  function StopBeginStep(s: State, stream: string): State {
    if stream !in s.sessions || s.sessions[stream].stopping then s
    else
      var session := s.sessions[stream];
      if session.backend !in s.backends then s.(sessions := s.sessions - {stream})
      else
        var be := s.backends[session.backend];
        WithRefs(s, session.backend, Dec(be.refs, session.reader)).(
          sessions := s.sessions[stream := session.(stopping := true, active := false)],
          teardowns := s.teardowns[stream :=
            Teardown(session.reader, session.backend, be.builtin, Closes(be.refs, session.reader), BeforeStop)])
  }

  function NextPhase(t: Teardown): Phase {
    match t.phase
    case BeforeStop => if t.builtin then BeforeErase else InStop
    case InStop => if t.close then BeforeClose else BeforeErase
    case BeforeClose => InClose
    case _ => BeforeErase
  }

  function Calls(t: Teardown, stream: string): seq<Event> {
    match NextPhase(t)
    case InStop => [Stopped(t.backend, stream)]
    case InClose => [Closed(t.backend, t.reader)]
    case _ => []
  }

  function AdvanceStep(s: State, stream: string): State {
    if stream !in s.teardowns then s
    else
      var t := s.teardowns[stream];
      if t.phase == BeforeErase then
        s.(teardowns := s.teardowns - {stream},
           sessions := if stream in s.sessions && s.sessions[stream].stopping
                       then s.sessions - {stream} else s.sessions)
      else
        s.(teardowns := s.teardowns[stream := t.(phase := NextPhase(t))], log := s.log + Calls(t, stream))
  }

  // The session after a transport buffer; only a plugin can retry or fail, bad sizes always fail.
  function Processed(session: Session, be: Option<Backend>, size: nat, reply: Reply): Session {
    var n := session.(calls := session.calls + 1, bytes := session.bytes + size);
    if size % 188 != 0 then n.(errors := n.errors + 1)
    else if be.None? || be.value.builtin || reply == Done then n
    else if reply == Passed then n.(passthrough := true)
    else if reply == Retry then n.(retries := n.retries + 1)
    else n.(errors := n.errors + 1)
  }

  function FindBackend(s: State, b: string): Option<Backend> {
    if b in s.backends then Some(s.backends[b]) else None
  }

  function ProcessStep(s: State, stream: string, size: nat, reply: Reply): State {
    if size == 0 || stream !in s.sessions || s.sessions[stream].stopping then s
    else
      var session := s.sessions[stream];
      s.(sessions := s.sessions[stream := Processed(session, FindBackend(s, session.backend), size, reply)])
  }

  function Apply(s: State, a: Action): State {
    match a
    case Configure(plugins) => ConfigureStep(s, plugins)
    case Start(stream, reader, b, openOk, reply) => StartStep(s, stream, reader, Key(b), openOk, reply)
    case MarkActive(stream) => MarkActiveStep(s, stream)
    case StopBegin(stream) => StopBeginStep(s, stream)
    case Advance(stream) => AdvanceStep(s, stream)
    case Process(stream, size, reply) => ProcessStep(s, stream, size, reply)
  }

  function Exec(s: State, actions: seq<Action>): State
    decreases |actions|
  {
    if actions == [] then s else Exec(Apply(s, actions[0]), actions[1..])
  }

  // ----- What every lock release keeps ---------------------------------------------------

  // The services that hold reader `r` of backend `b`.
  ghost function Users(sessions: map<string, Session>, b: string, r: string): set<string> {
    set id | id in sessions && !sessions[id].stopping && sessions[id].backend == b && sessions[id].reader == r
  }

  ghost predicate RefOk(refs: map<string, nat>, users: set<string>, r: string) {
    && (r in refs <==> users != {})
    && (r in refs ==> refs[r] == |users|)
  }

  ghost predicate RefCounts(backends: map<string, Backend>, sessions: map<string, Session>, b: string, r: string) {
    b in backends ==> RefOk(backends[b].refs, Users(sessions, b, r), r)
  }

  // Reader references count exactly the services that are not stopping.
  ghost predicate RefsCount(backends: map<string, Backend>, sessions: map<string, Session>) {
    forall b: string, r: string :: RefCounts(backends, sessions, b, r)
  }

  // Every session's backend is loaded; only the passthrough backend is built in.
  ghost predicate BackendsLoaded(s: State) {
    && PASSTHROUGH in s.backends
    && (forall b :: b in s.backends ==> (s.backends[b].builtin <==> b == PASSTHROUGH))
    && (forall id :: id in s.sessions ==> s.sessions[id].backend in s.backends)
  }

  ghost predicate TeardownOf(t: Teardown, session: Session) {
    && session.stopping && t.reader == session.reader && t.backend == session.backend
    && (t.builtin <==> t.backend == PASSTHROUGH)
    && ((t.phase == BeforeClose || t.phase == InClose) ==> t.close && !t.builtin)
    && (t.phase == InStop ==> !t.builtin)
  }

  // Threads inside stopService are exactly the sessions marked as stopping.
  ghost predicate TeardownsMatch(s: State) {
    && (forall id :: id in s.teardowns ==> id in s.sessions && TeardownOf(s.teardowns[id], s.sessions[id]))
    && (forall id :: id in s.sessions && s.sessions[id].stopping ==> id in s.teardowns)
  }

  // Teardowns that still have to call close_reader.
  predicate WillClose(t: Teardown, b: string, r: string) {
    !t.builtin && t.close && t.backend == b && t.reader == r
    && (t.phase == BeforeStop || t.phase == InStop || t.phase == BeforeClose)
  }

  ghost function Pending(teardowns: map<string, Teardown>, b: string, r: string): set<string> {
    set id | id in teardowns && WillClose(teardowns[id], b, r)
  }

  ghost function Count(log: seq<Event>, e: Event): nat {
    multiset(log)[e]
  }

  predicate Held(backends: map<string, Backend>, b: string, r: string) {
    b in backends && !backends[b].builtin && r in backends[b].refs
  }

  // Opens are the closes made, the closes still to come and the reader being held.
  ghost predicate Balanced(backends: map<string, Backend>, teardowns: map<string, Teardown>, log: seq<Event>,
                           b: string, r: string)
  {
    Count(log, Opened(b, r))
      == Count(log, Closed(b, r)) + |Pending(teardowns, b, r)| + if Held(backends, b, r) then 1 else 0
  }

  ghost predicate ReadersBalance(backends: map<string, Backend>, teardowns: map<string, Teardown>, log: seq<Event>) {
    forall b: string, r: string :: Balanced(backends, teardowns, log, b, r)
  }

  // The service calls of one stream, replayed.
  datatype Service = Idle | On(backend: string) | Broken

  function Replay(log: seq<Event>, stream: string): Service
    decreases |log|
  {
    if log == [] then Idle else OnEvent(Replay(log[..|log| - 1], stream), log[|log| - 1], stream)
  }

  function OnEvent(service: Service, e: Event, stream: string): Service {
    match e
    case Started(b, id) => if id != stream then service else if service == Idle then On(b) else Broken
    case Stopped(b, id) => if id != stream then service else if service == On(b) then Idle else Broken
    case _ => service
  }

  // What the replay must have come to.
  function ServiceOf(sessions: map<string, Session>, teardowns: map<string, Teardown>, stream: string): Service {
    if stream in sessions && sessions[stream].backend != PASSTHROUGH
       && (stream !in teardowns || teardowns[stream].phase == BeforeStop)
    then On(sessions[stream].backend)
    else Idle
  }

  ghost predicate InService(sessions: map<string, Session>, teardowns: map<string, Teardown>, log: seq<Event>,
                            stream: string)
  {
    Replay(log, stream) == ServiceOf(sessions, teardowns, stream)
  }

  ghost predicate ServicesAlternate(sessions: map<string, Session>, teardowns: map<string, Teardown>, log: seq<Event>) {
    forall stream: string :: InService(sessions, teardowns, log, stream)
  }

  ghost predicate Inv(s: State) {
    && BackendsLoaded(s) && TeardownsMatch(s)
    && RefsCount(s.backends, s.sessions)
    && ReadersBalance(s.backends, s.teardowns, s.log)
    && ServicesAlternate(s.sessions, s.teardowns, s.log)
  }

  // ----- Reference arithmetic -------------------------------------------------------------

  lemma IncOk(refs: map<string, nat>, users: set<string>, id: string, r: string)
    requires RefOk(refs, users, r) && id !in users
    ensures RefOk(Inc(refs, r), users + {id}, r)
  {
    assert id in users + {id};
  }

  lemma DecOk(refs: map<string, nat>, users: set<string>, id: string, r: string)
    requires RefOk(refs, users, r) && id in users
    ensures RefOk(Dec(refs, r), users - {id}, r)
    ensures Closes(refs, r) <==> users == {id}
  {
    assert |users - {id}| == |users| - 1;
    if |users| > 1 {
      assert users - {id} != {};
    } else {
      assert users - {id} == {};
      assert users == {id};
    }
  }

  lemma DecIncOk(refs: map<string, nat>, users: set<string>, r: string)
    requires RefOk(refs, users, r)
    ensures Dec(Inc(refs, r), r) == refs
    ensures Closes(Inc(refs, r), r) <==> r !in refs
  {
    if r in refs {
      assert |users| > 0;
      assert Inc(refs, r)[r := refs[r]] == refs;
    } else {
      assert refs[r := 1] - {r} == refs;
    }
  }

  lemma UsersOfNew(sessions: map<string, Session>, id: string, session: Session, b: string, r: string)
    requires id !in sessions && !session.stopping
    ensures Users(sessions[id := session], b, r)
         == Users(sessions, b, r) + if session.backend == b && session.reader == r then {id} else {}
  {
  }

  // A change that leaves reader, backend and stopping alone, or one to a stopping session.
  lemma UsersUnchanged(sessions: map<string, Session>, id: string, session: Session, b: string, r: string)
    requires id in sessions && session.reader == sessions[id].reader && session.backend == sessions[id].backend
    requires session.stopping == sessions[id].stopping
    ensures Users(sessions[id := session], b, r) == Users(sessions, b, r)
  {
  }

  lemma UsersOfStopped(sessions: map<string, Session>, id: string, session: Session, b: string, r: string)
    requires id in sessions && session.stopping
    ensures Users(sessions[id := session], b, r) == Users(sessions, b, r) - {id}
  {
  }

  lemma UsersOfErased(sessions: map<string, Session>, id: string, b: string, r: string)
    requires id in sessions && sessions[id].stopping
    ensures Users(sessions - {id}, b, r) == Users(sessions, b, r)
  {
  }

  // ----- RefsCount is kept ------------------------------------------------------------------

  lemma ConfigureKeepsRefs(s: State, plugins: map<string, bool>)
    requires Inv(s) && s.sessions == map[]
    ensures RefsCount(ConfigureStep(s, plugins).backends, map[])
  {
    var u := ConfigureStep(s, plugins);
    forall b: string, r: string ensures RefCounts(u.backends, map[], b, r) {
      assert RefCounts(s.backends, s.sessions, b, r);
      assert Users(map[], b, r) == {};
    }
  }

  lemma AttachKeepsRef(s: State, stream: string, session: Session, events: seq<Event>, b: string, r: string)
    requires RefsCount(s.backends, s.sessions)
    requires stream !in s.sessions && session.backend in s.backends && !session.stopping
    ensures var u := Attach(s, stream, session, events); RefCounts(u.backends, u.sessions, b, r)
  {
    assert RefCounts(s.backends, s.sessions, b, r);
    UsersOfNew(s.sessions, stream, session, b, r);
    if b == session.backend && r == session.reader {
      IncOk(s.backends[b].refs, Users(s.sessions, b, r), stream, r);
    }
  }

  lemma RollBackChangesNoRefs(s: State, reader: string, b: string, events: seq<Event>)
    requires RefsCount(s.backends, s.sessions) && b in s.backends
    ensures RollBack(s, reader, b, events)
         == s.(log := s.log + events + if reader !in s.backends[b].refs then [Closed(b, reader)] else [])
  {
    assert RefCounts(s.backends, s.sessions, b, reader);
    DecIncOk(s.backends[b].refs, Users(s.sessions, b, reader), reader);
    assert s.backends[b := s.backends[b]] == s.backends;
  }

  lemma StopBeginKeepsRef(s: State, stream: string, b: string, r: string)
    requires Inv(s) && stream in s.sessions && !s.sessions[stream].stopping
    ensures var u := StopBeginStep(s, stream); RefCounts(u.backends, u.sessions, b, r)
  {
    var u := StopBeginStep(s, stream);
    var session := s.sessions[stream];
    assert RefCounts(s.backends, s.sessions, b, r);
    UsersOfStopped(s.sessions, stream, u.sessions[stream], b, r);
    if b == session.backend && r == session.reader {
      DecOk(s.backends[b].refs, Users(s.sessions, b, r), stream, r);
    } else {
      assert Users(s.sessions, b, r) - {stream} == Users(s.sessions, b, r);
    }
  }

  lemma AdvanceKeepsRef(s: State, stream: string, b: string, r: string)
    requires Inv(s) && stream in s.teardowns
    ensures var u := AdvanceStep(s, stream); RefCounts(u.backends, u.sessions, b, r)
  {
    assert RefCounts(s.backends, s.sessions, b, r);
    UsersOfErased(s.sessions, stream, b, r);
  }

  // ----- ReadersBalance is kept ---------------------------------------------------------------

  lemma CountAppend(log: seq<Event>, more: seq<Event>, e: Event)
    ensures Count(log + more, e) == Count(log, e) + Count(more, e)
  {
  }

  lemma CountOne(x: Event, e: Event)
    ensures Count([x], e) == if x == e then 1 else 0
    ensures Count([], e) == 0
  {
  }

  lemma CountLast(log: seq<Event>, x: Event, e: Event)
    ensures Count(log + [x], e) == Count(log, e) + if x == e then 1 else 0
  {
    CountAppend(log, [x], e);
    CountOne(x, e);
  }

  lemma ConfigureKeepsBalance(s: State, plugins: map<string, bool>, b: string, r: string)
    requires Inv(s) && s.sessions == map[]
    ensures var u := ConfigureStep(s, plugins); Balanced(u.backends, u.teardowns, u.log, b, r)
  {
    assert Balanced(s.backends, s.teardowns, s.log, b, r);
    assert RefCounts(s.backends, s.sessions, b, r);
    assert Users(s.sessions, b, r) == {};
    var e := Unloaded(s.backends.Keys - Builtins(s.backends).Keys);
    CountLast(s.log, e, Opened(b, r));
    CountLast(s.log, e, Closed(b, r));
  }

  // The events of a start add one open exactly when the reader must be opened.
  lemma StartEventsCount(log: seq<Event>, be: Backend, b0: string, reader: string, last: Event, b: string, r: string)
    requires last.Started?
    ensures var all := log + (OpenEvents(be, b0, reader) + [last]);
            && Count(all, Closed(b, r)) == Count(log, Closed(b, r))
            && Count(all, Opened(b, r))
                 == Count(log, Opened(b, r)) + if MustOpen(be, reader) && b == b0 && r == reader then 1 else 0
  {
    var open := OpenEvents(be, b0, reader);
    assert log + (open + [last]) == log + open + [last];
    CountLast(log + open, last, Opened(b, r));
    CountLast(log + open, last, Closed(b, r));
    if MustOpen(be, reader) {
      CountLast(log, Opened(b0, reader), Opened(b, r));
      CountLast(log, Opened(b0, reader), Closed(b, r));
    } else {
      assert log + [] == log;
    }
  }

  lemma HeldAfterAttach(backends: map<string, Backend>, b0: string, reader: string, b: string, r: string)
    requires b0 in backends
    ensures Held(backends[b0 := backends[b0].(refs := Inc(backends[b0].refs, reader))], b, r)
        <==> Held(backends, b, r) || (MustOpen(backends[b0], reader) && b == b0 && r == reader)
  {
  }

  lemma AttachKeepsBalance(s: State, stream: string, session: Session, last: Event, b: string, r: string)
    requires Balanced(s.backends, s.teardowns, s.log, b, r) && session.backend in s.backends && last.Started?
    ensures var be := s.backends[session.backend];
            var events := if be.builtin then [] else OpenEvents(be, session.backend, session.reader) + [last];
            var u := Attach(s, stream, session, events); Balanced(u.backends, u.teardowns, u.log, b, r)
  {
    var be := s.backends[session.backend];
    HeldAfterAttach(s.backends, session.backend, session.reader, b, r);
    if be.builtin {
      assert s.log + [] == s.log;
    } else {
      StartEventsCount(s.log, be, session.backend, session.reader, last, b, r);
    }
  }

  lemma RollBackKeepsBalance(s: State, reader: string, b0: string, b: string, r: string)
    requires Inv(s) && b0 in s.backends && !s.backends[b0].builtin
    ensures var u := RollBack(s, reader, b0, OpenEvents(s.backends[b0], b0, reader));
            Balanced(u.backends, u.teardowns, u.log, b, r)
  {
    var events := OpenEvents(s.backends[b0], b0, reader);
    assert Balanced(s.backends, s.teardowns, s.log, b, r);
    RollBackChangesNoRefs(s, reader, b0, events);
    if MustOpen(s.backends[b0], reader) {
      var open, close := Opened(b0, reader), Closed(b0, reader);
      CountLast(s.log, open, Opened(b, r));
      CountLast(s.log, open, Closed(b, r));
      CountLast(s.log + [open], close, Opened(b, r));
      CountLast(s.log + [open], close, Closed(b, r));
    } else {
      assert s.log + [] + [] == s.log;
    }
  }

  lemma PendingAfterStopBegin(teardowns: map<string, Teardown>, stream: string, t: Teardown, b: string, r: string)
    requires stream !in teardowns
    ensures |Pending(teardowns[stream := t], b, r)| == |Pending(teardowns, b, r)| + if WillClose(t, b, r) then 1 else 0
  {
    assert Pending(teardowns[stream := t], b, r)
        == Pending(teardowns, b, r) + if WillClose(t, b, r) then {stream} else {};
  }

  lemma HeldAfterDrop(backends: map<string, Backend>, b0: string, reader: string, b: string, r: string)
    requires b0 in backends && reader in backends[b0].refs
    ensures var be := backends[b0];
            var closed := !be.builtin && Closes(be.refs, reader) && b == b0 && r == reader;
            Held(backends[b0 := be.(refs := Dec(be.refs, reader))], b, r) <==> Held(backends, b, r) && !closed
  {
  }

  lemma StopBeginKeepsBalance(s: State, stream: string, b: string, r: string)
    requires Balanced(s.backends, s.teardowns, s.log, b, r)
    requires stream in s.sessions && !s.sessions[stream].stopping && stream !in s.teardowns
    requires s.sessions[stream].backend in s.backends
    requires s.sessions[stream].reader in s.backends[s.sessions[stream].backend].refs
    ensures var u := StopBeginStep(s, stream); Balanced(u.backends, u.teardowns, u.log, b, r)
  {
    var u := StopBeginStep(s, stream);
    var session := s.sessions[stream];
    PendingAfterStopBegin(s.teardowns, stream, u.teardowns[stream], b, r);
    HeldAfterDrop(s.backends, session.backend, session.reader, b, r);
  }

  lemma UserHoldsReader(s: State, stream: string)
    requires Inv(s) && stream in s.sessions && !s.sessions[stream].stopping
    ensures s.sessions[stream].reader in s.backends[s.sessions[stream].backend].refs
  {
    var session := s.sessions[stream];
    assert RefCounts(s.backends, s.sessions, session.backend, session.reader);
    assert stream in Users(s.sessions, session.backend, session.reader);
  }

  // Only the step that calls close_reader counts.
  lemma CountCalls(log: seq<Event>, t: Teardown, stream: string, b: string, r: string)
    ensures Count(log + Calls(t, stream), Opened(b, r)) == Count(log, Opened(b, r))
    ensures Count(log + Calls(t, stream), Closed(b, r))
         == Count(log, Closed(b, r)) + if NextPhase(t) == InClose && t.backend == b && t.reader == r then 1 else 0
  {
    if NextPhase(t) == InStop {
      CountLast(log, Stopped(t.backend, stream), Opened(b, r));
      CountLast(log, Stopped(t.backend, stream), Closed(b, r));
    } else if NextPhase(t) == InClose {
      CountLast(log, Closed(t.backend, t.reader), Opened(b, r));
      CountLast(log, Closed(t.backend, t.reader), Closed(b, r));
    } else {
      assert log + [] == log;
    }
  }

  lemma AdvanceKeepsBalance(s: State, stream: string, b: string, r: string)
    requires Balanced(s.backends, s.teardowns, s.log, b, r)
    requires stream in s.teardowns
    requires s.teardowns[stream].phase == BeforeClose ==> s.teardowns[stream].close && !s.teardowns[stream].builtin
    ensures var u := AdvanceStep(s, stream); Balanced(u.backends, u.teardowns, u.log, b, r)
  {
    var u, t := AdvanceStep(s, stream), s.teardowns[stream];
    PendingAfterAdvance(s.teardowns, u.teardowns, stream, t, b, r);
    if t.phase != BeforeErase { CountCalls(s.log, t, stream, b, r); }
  }

  lemma PendingAfterAdvance(
      before: map<string, Teardown>, after: map<string, Teardown>, stream: string, t: Teardown, b: string, r: string)
    requires stream in before && before[stream] == t
    requires after == if t.phase == BeforeErase then before - {stream} else before[stream := t.(phase := NextPhase(t))]
    requires t.phase == BeforeClose ==> t.close && !t.builtin
    ensures |Pending(after, b, r)|
              == |Pending(before, b, r)| - if t.phase == BeforeClose && t.backend == b && t.reader == r then 1 else 0
  {
    if t.phase == BeforeClose && t.backend == b && t.reader == r {
      assert stream in Pending(before, b, r);
      assert Pending(after, b, r) == Pending(before, b, r) - {stream};
    } else {
      assert Pending(after, b, r) == Pending(before, b, r);
    }
  }

  // ----- ServicesAlternate is kept --------------------------------------------------------------

  lemma ReplayAppend(log: seq<Event>, e: Event, stream: string)
    ensures Replay(log + [e], stream) == OnEvent(Replay(log, stream), e, stream)
  {
    assert (log + [e])[..|log|] == log;
  }

  lemma ReplayOpens(s: State, be: Backend, b: string, reader: string, id: string)
    ensures Replay(s.log + OpenEvents(be, b, reader), id) == Replay(s.log, id)
  {
    if MustOpen(be, reader) {
      ReplayAppend(s.log, Opened(b, reader), id);
    } else {
      assert s.log + [] == s.log;
    }
  }

  // The log of a start that succeeded, replayed.
  lemma ReplayStart(s: State, be: Backend, b: string, reader: string, stream: string, id: string)
    ensures Replay(s.log + (OpenEvents(be, b, reader) + [Started(b, stream)]), id)
         == OnEvent(Replay(s.log, id), Started(b, stream), id)
  {
    var open, last := OpenEvents(be, b, reader), Started(b, stream);
    assert s.log + (open + [last]) == s.log + open + [last];
    ReplayOpens(s, be, b, reader, id);
    ReplayAppend(s.log + open, last, id);
  }

  lemma ServiceAfterAttach(s: State, stream: string, session: Session, id: string)
    requires stream !in s.sessions && stream !in s.teardowns
    ensures ServiceOf(s.sessions, s.teardowns, stream) == Idle
    ensures ServiceOf(s.sessions[stream := session], s.teardowns, id)
         == if id == stream && session.backend != PASSTHROUGH then On(session.backend)
            else ServiceOf(s.sessions, s.teardowns, id)
  {
  }

  lemma AttachKeepsService(s: State, stream: string, session: Session, id: string)
    requires InService(s.sessions, s.teardowns, s.log, id)
    requires stream !in s.sessions && stream !in s.teardowns && session.backend in s.backends
    requires s.backends[session.backend].builtin <==> session.backend == PASSTHROUGH
    ensures var be := s.backends[session.backend];
            var last := Started(session.backend, stream);
            var events := if be.builtin then [] else OpenEvents(be, session.backend, session.reader) + [last];
            InService(s.sessions[stream := session], s.teardowns, s.log + events, id)
  {
    var be := s.backends[session.backend];
    ServiceAfterAttach(s, stream, session, id);
    if be.builtin {
      assert s.log + [] == s.log;
    } else {
      ReplayStart(s, be, session.backend, session.reader, stream, id);
    }
  }

  lemma RollBackKeepsService(s: State, reader: string, b0: string, id: string)
    requires Inv(s) && b0 in s.backends
    ensures var u := RollBack(s, reader, b0, OpenEvents(s.backends[b0], b0, reader));
            InService(u.sessions, u.teardowns, u.log, id)
  {
    var open := OpenEvents(s.backends[b0], b0, reader);
    assert InService(s.sessions, s.teardowns, s.log, id);
    RollBackChangesNoRefs(s, reader, b0, open);
    ReplayOpens(s, s.backends[b0], b0, reader, id);
    ReplayAppend(s.log + open, Closed(b0, reader), id);
    assert s.log + open + [] == s.log + open;
  }

  lemma StopBeginKeepsService(s: State, stream: string, id: string)
    requires Inv(s) && stream in s.sessions && !s.sessions[stream].stopping
    ensures var u := StopBeginStep(s, stream); InService(u.sessions, u.teardowns, u.log, id)
  {
    assert InService(s.sessions, s.teardowns, s.log, id);
  }

  // Only the step that calls stop_service changes what a stream's replay must come to.
  lemma ServiceAfterAdvance(s: State, stream: string, id: string)
    requires stream in s.teardowns && stream in s.sessions && TeardownOf(s.teardowns[stream], s.sessions[stream])
    ensures var u, t := AdvanceStep(s, stream), s.teardowns[stream];
            var before := ServiceOf(s.sessions, s.teardowns, id);
            if id == stream && NextPhase(t) == InStop && t.phase == BeforeStop
            then before == On(t.backend) && ServiceOf(u.sessions, u.teardowns, id) == Idle
            else ServiceOf(u.sessions, u.teardowns, id) == before
  {
  }

  lemma ReplayCalls(log: seq<Event>, t: Teardown, stream: string, id: string)
    requires t.phase != BeforeErase
    ensures Replay(log + Calls(t, stream), id)
         == if NextPhase(t) == InStop then OnEvent(Replay(log, id), Stopped(t.backend, stream), id) else Replay(log, id)
  {
    if NextPhase(t) == InStop {
      ReplayAppend(log, Stopped(t.backend, stream), id);
    } else if NextPhase(t) == InClose {
      ReplayAppend(log, Closed(t.backend, t.reader), id);
    } else {
      assert log + [] == log;
    }
  }

  lemma CallKeepsService(log: seq<Event>, t: Teardown, stream: string, id: string, before: Service, after: Service)
    requires t.phase != BeforeErase && Replay(log, id) == before
    requires if id == stream && NextPhase(t) == InStop && t.phase == BeforeStop
             then before == On(t.backend) && after == Idle else after == before
    ensures Replay(log + Calls(t, stream), id) == after
  {
    ReplayCalls(log, t, stream, id);
  }

  lemma AdvanceKeepsService(s: State, stream: string, id: string)
    requires InService(s.sessions, s.teardowns, s.log, id)
    requires stream in s.teardowns && stream in s.sessions && TeardownOf(s.teardowns[stream], s.sessions[stream])
    ensures var u := AdvanceStep(s, stream); InService(u.sessions, u.teardowns, u.log, id)
  {
    var u, t := AdvanceStep(s, stream), s.teardowns[stream];
    ServiceAfterAdvance(s, stream, id);
    if t.phase != BeforeErase {
      CallKeepsService(s.log, t, stream, id, ServiceOf(s.sessions, s.teardowns, id),
                       ServiceOf(u.sessions, u.teardowns, id));
    }
  }

  // ----- The invariant holds in every reachable state -------------------------------------------

  lemma ConfigureKeepsInv(s: State, plugins: map<string, bool>)
    requires Inv(s)
    ensures Inv(ConfigureStep(s, plugins))
  {
    if s.sessions == map[] {
      var u := ConfigureStep(s, plugins);
      ConfigureKeepsRefs(s, plugins);
      forall b: string, r: string ensures Balanced(u.backends, u.teardowns, u.log, b, r) {
        ConfigureKeepsBalance(s, plugins, b, r);
      }
      forall id: string ensures InService(u.sessions, u.teardowns, u.log, id) {
        assert InService(s.sessions, s.teardowns, s.log, id);
        ReplayAppend(s.log, Unloaded(s.backends.Keys - Builtins(s.backends).Keys), id);
      }
    }
  }

  lemma AttachKeepsInv(s: State, stream: string, session: Session)
    requires Inv(s) && stream !in s.sessions && session.backend in s.backends && !session.stopping
    ensures var be := s.backends[session.backend];
            var last := Started(session.backend, stream);
            var events := if be.builtin then [] else OpenEvents(be, session.backend, session.reader) + [last];
            Inv(Attach(s, stream, session, events))
  {
    var be, last := s.backends[session.backend], Started(session.backend, stream);
    var events := if be.builtin then [] else OpenEvents(be, session.backend, session.reader) + [last];
    var u := Attach(s, stream, session, events);
    forall b: string, r: string ensures RefCounts(u.backends, u.sessions, b, r) {
      AttachKeepsRef(s, stream, session, events, b, r);
    }
    forall b: string, r: string ensures Balanced(u.backends, u.teardowns, u.log, b, r) {
      assert Balanced(s.backends, s.teardowns, s.log, b, r);
      AttachKeepsBalance(s, stream, session, last, b, r);
    }
    forall id: string ensures InService(u.sessions, u.teardowns, u.log, id) {
      assert InService(s.sessions, s.teardowns, s.log, id);
      AttachKeepsService(s, stream, session, id);
    }
  }

  lemma RollBackKeepsInv(s: State, reader: string, b0: string)
    requires Inv(s) && b0 in s.backends && !s.backends[b0].builtin
    ensures Inv(RollBack(s, reader, b0, OpenEvents(s.backends[b0], b0, reader)))
  {
    var u := RollBack(s, reader, b0, OpenEvents(s.backends[b0], b0, reader));
    RollBackChangesNoRefs(s, reader, b0, OpenEvents(s.backends[b0], b0, reader));
    forall b: string, r: string ensures Balanced(u.backends, u.teardowns, u.log, b, r) {
      RollBackKeepsBalance(s, reader, b0, b, r);
    }
    forall id: string ensures InService(u.sessions, u.teardowns, u.log, id) {
      RollBackKeepsService(s, reader, b0, id);
    }
  }

  lemma StartKeepsInv(s: State, stream: string, reader: string, b: string, openOk: bool, reply: Reply)
    requires Inv(s)
    ensures Inv(StartStep(s, stream, reader, b, openOk, reply))
  {
    if CanStart(s, stream, reader, b, openOk) {
      var be := s.backends[b];
      if be.builtin {
        AttachKeepsInv(s, stream, NewSession(be, b, reader, Done));
      } else if Succeeds(reply) {
        AttachKeepsInv(s, stream, NewSession(be, b, reader, reply));
      } else {
        RollBackKeepsInv(s, reader, b);
      }
    }
  }

  lemma StopBeginKeepsInv(s: State, stream: string)
    requires Inv(s)
    ensures Inv(StopBeginStep(s, stream))
  {
    if stream in s.sessions && !s.sessions[stream].stopping {
      var u := StopBeginStep(s, stream);
      UserHoldsReader(s, stream);
      forall b: string, r: string ensures RefCounts(u.backends, u.sessions, b, r) {
        StopBeginKeepsRef(s, stream, b, r);
      }
      forall b: string, r: string ensures Balanced(u.backends, u.teardowns, u.log, b, r) {
        assert Balanced(s.backends, s.teardowns, s.log, b, r);
        StopBeginKeepsBalance(s, stream, b, r);
      }
      forall id: string ensures InService(u.sessions, u.teardowns, u.log, id) { StopBeginKeepsService(s, stream, id); }
    }
  }

  lemma AdvanceKeepsInv(s: State, stream: string)
    requires Inv(s)
    ensures Inv(AdvanceStep(s, stream))
  {
    if stream in s.teardowns {
      var u := AdvanceStep(s, stream);
      forall b: string, r: string ensures RefCounts(u.backends, u.sessions, b, r) { AdvanceKeepsRef(s, stream, b, r); }
      forall b: string, r: string ensures Balanced(u.backends, u.teardowns, u.log, b, r) {
        assert Balanced(s.backends, s.teardowns, s.log, b, r);
        AdvanceKeepsBalance(s, stream, b, r);
      }
      forall id: string ensures InService(u.sessions, u.teardowns, u.log, id) {
        assert InService(s.sessions, s.teardowns, s.log, id);
        AdvanceKeepsService(s, stream, id);
      }
    }
  }

  lemma SessionKeepsInv(s: State, stream: string, session: Session)
    requires Inv(s) && stream in s.sessions
    requires session.reader == s.sessions[stream].reader && session.backend == s.sessions[stream].backend
    requires session.stopping == s.sessions[stream].stopping
    ensures Inv(s.(sessions := s.sessions[stream := session]))
  {
    var sessions := s.sessions[stream := session];
    forall b: string, r: string ensures RefCounts(s.backends, sessions, b, r) {
      assert RefCounts(s.backends, s.sessions, b, r);
      UsersUnchanged(s.sessions, stream, session, b, r);
    }
    forall id: string ensures InService(sessions, s.teardowns, s.log, id) {
      assert InService(s.sessions, s.teardowns, s.log, id);
    }
  }

  lemma StepKeepsInv(s: State, a: Action)
    requires Inv(s)
    ensures Inv(Apply(s, a))
  {
    match a
    case Configure(plugins) => ConfigureKeepsInv(s, plugins);
    case Start(stream, reader, b, openOk, reply) => StartKeepsInv(s, stream, reader, Key(b), openOk, reply);
    case MarkActive(stream) =>
      if stream in s.sessions { SessionKeepsInv(s, stream, s.sessions[stream].(active := true)); }
    case StopBegin(stream) => StopBeginKeepsInv(s, stream);
    case Advance(stream) => AdvanceKeepsInv(s, stream);
    case Process(stream, size, reply) =>
      if stream in s.sessions {
        var session := s.sessions[stream];
        SessionKeepsInv(s, stream, Processed(session, FindBackend(s, session.backend), size, reply));
      }
  }

  lemma InitialInv()
    ensures Inv(INITIAL)
  {
    forall b: string, r: string ensures Balanced(INITIAL.backends, INITIAL.teardowns, INITIAL.log, b, r) {
      assert Pending(INITIAL.teardowns, b, r) == {};
    }
  }

  // MAIN: at every lock release of every interleaving the reader references count the services
  // that are not stopping, every session's backend is loaded, opens and closes of every reader
  // balance, and the service calls of every stream alternate.
  lemma {:induction false} RunKeepsInv(s: State, actions: seq<Action>)
    requires Inv(s)
    ensures Inv(Exec(s, actions))
    decreases |actions|
  {
    if actions != [] {
      StepKeepsInv(s, actions[0]);
      RunKeepsInv(Apply(s, actions[0]), actions[1..]);
    }
  }

  // ----- What the invariant means to a caller ----------------------------------------------------

  lemma ReachableInv(actions: seq<Action>)
    ensures Inv(Exec(INITIAL, actions))
  {
    InitialInv();
    RunKeepsInv(INITIAL, actions);
  }

  // MAIN: a reader is referenced exactly while a service that is not stopping uses it, by as many
  // references as there are such services; and backends of sessions and of running teardowns stay loaded.
  lemma ReferencesCountServices(actions: seq<Action>, b: string, r: string)
    ensures var s := Exec(INITIAL, actions);
            && (b in s.backends ==>
                  && (r in s.backends[b].refs <==> exists id :: id in Users(s.sessions, b, r))
                  && (r in s.backends[b].refs ==> s.backends[b].refs[r] == |Users(s.sessions, b, r)|))
            && (forall id :: id in s.sessions ==> s.sessions[id].backend in s.backends)
            && (forall id :: id in s.teardowns ==> s.teardowns[id].backend in s.backends)
  {
    var s := Exec(INITIAL, actions);
    ReachableInv(actions);
    assert RefCounts(s.backends, s.sessions, b, r);
    if Users(s.sessions, b, r) != {} {
      var id :| id in Users(s.sessions, b, r);
    }
  }

  // MAIN: configure unloads plugins only when no thread is inside stopService, so none of their
  // callbacks is running or still to come, every reader is closed and every service stopped.
  lemma UnloadingIsSafe(actions: seq<Action>, plugins: map<string, bool>, b: string, r: string, stream: string)
    ensures var s := Exec(INITIAL, actions);
            var u := Apply(s, Configure(plugins));
            if s.sessions == map[] then
              && s.teardowns == map[]
              && Count(s.log, Opened(b, r)) == Count(s.log, Closed(b, r))
              && Replay(s.log, stream) == Idle
            else u == s
  {
    var s := Exec(INITIAL, actions);
    ReachableInv(actions);
    if s.sessions == map[] {
      assert s.teardowns == map[] by {
        assert forall id :: id !in s.teardowns;
      }
      assert RefCounts(s.backends, s.sessions, b, r);
      assert Users(s.sessions, b, r) == {};
      assert Pending(s.teardowns, b, r) == {};
      assert Balanced(s.backends, s.teardowns, s.log, b, r);
      assert InService(s.sessions, s.teardowns, s.log, stream);
    }
  }

  // MAIN: per reader, the successful opens are the closes made, the closes still to be made by
  // running teardowns, and one more while the reader is referenced.
  lemma OpensAndClosesBalance(actions: seq<Action>, b: string, r: string)
    ensures var s := Exec(INITIAL, actions);
            Count(s.log, Opened(b, r))
              == Count(s.log, Closed(b, r)) + |Pending(s.teardowns, b, r)| + if Held(s.backends, b, r) then 1 else 0
  {
    var s := Exec(INITIAL, actions);
    ReachableInv(actions);
    assert Balanced(s.backends, s.teardowns, s.log, b, r);
  }

  lemma {:induction false} BrokenStays(log: seq<Event>, n: nat, stream: string)
    requires n <= |log| && Replay(log, stream) != Broken
    ensures Replay(log[..n], stream) != Broken
    decreases |log|
  {
    if n < |log| {
      var before := log[..|log| - 1];
      BrokenStays(before, n, stream);
      assert before[..n] == log[..n];
    } else {
      assert log[..n] == log;
    }
  }

  lemma ReplayAt(log: seq<Event>, i: nat, stream: string)
    requires i < |log| && Replay(log, stream) != Broken
    ensures Replay(log[..i + 1], stream) == OnEvent(Replay(log[..i], stream), log[i], stream) != Broken
  {
    BrokenStays(log, i + 1, stream);
    assert log[..i + 1][..i] == log[..i];
  }

  predicate StoppedWithin(log: seq<Event>, from: nat, upto: nat, b: string, stream: string) {
    exists k :: from <= k < upto && k < |log| && log[k] == Stopped(b, stream)
  }

  // While nothing stops a started service, the replay stays on it.
  lemma {:induction false} StaysOn(log: seq<Event>, from: nat, upto: nat, b: string, stream: string)
    requires from <= upto <= |log| && Replay(log[..from], stream) == On(b)
    requires Replay(log, stream) != Broken && !StoppedWithin(log, from, upto, b, stream)
    ensures Replay(log[..upto], stream) == On(b)
    decreases upto
  {
    if upto > from {
      StaysOn(log, from, upto - 1, b, stream);
      BrokenStays(log, upto, stream);
      assert log[..upto][..upto - 1] == log[..upto - 1];
      assert log[upto - 1] != Stopped(b, stream);
    }
  }

  // MAIN: between two successful starts of a stream there is its stop, on the same backend.
  lemma StartsAreSeparatedByStops(actions: seq<Action>, stream: string, i: nat, j: nat, b: string, c: string)
    requires var log := Exec(INITIAL, actions).log;
             i < j < |log| && log[i] == Started(b, stream) && log[j] == Started(c, stream)
    ensures StoppedWithin(Exec(INITIAL, actions).log, i + 1, j, b, stream)
  {
    var s := Exec(INITIAL, actions);
    ReachableInv(actions);
    assert InService(s.sessions, s.teardowns, s.log, stream);
    ReplayAt(s.log, i, stream);
    ReplayAt(s.log, j, stream);
    if !StoppedWithin(s.log, i + 1, j, b, stream) {
      StaysOn(s.log, i + 1, j, b, stream);
    }
  }

  // MAIN: and between two stops there is a start, on the backend that is stopped.
  lemma StopsAreSeparatedByStarts(actions: seq<Action>, stream: string, i: nat, j: nat, b: string, c: string)
    requires var log := Exec(INITIAL, actions).log;
             i < j < |log| && log[i] == Stopped(b, stream) && log[j] == Stopped(c, stream)
    ensures StartedWithin(Exec(INITIAL, actions).log, i + 1, j, c, stream)
  {
    var s := Exec(INITIAL, actions);
    ReachableInv(actions);
    assert InService(s.sessions, s.teardowns, s.log, stream);
    ReplayAt(s.log, i, stream);
    ReplayAt(s.log, j, stream);
    StartedBefore(s.log, i + 1, j, c, stream);
  }

  predicate StartedWithin(log: seq<Event>, from: nat, upto: nat, b: string, stream: string) {
    exists k :: from <= k < upto && k < |log| && log[k] == Started(b, stream)
  }

  // A service that is on was started since it was last idle.
  lemma {:induction false} StartedBefore(log: seq<Event>, from: nat, upto: nat, b: string, stream: string)
    requires from <= upto <= |log| && Replay(log[..from], stream) == Idle && Replay(log[..upto], stream) == On(b)
    requires Replay(log, stream) != Broken
    ensures StartedWithin(log, from, upto, b, stream)
    decreases upto
  {
    assert upto > from;
    assert log[..upto][..upto - 1] == log[..upto - 1];
    if log[upto - 1] != Started(b, stream) {
      assert Replay(log[..upto - 1], stream) == On(b);
      StartedBefore(log, from, upto - 1, b, stream);
    }
  }

  // ----- When opens and closes of a reader alternate ---------------------------------------------

  ghost predicate Tight(log: seq<Event>, b: string, r: string) {
    Count(log, Closed(b, r)) <= Count(log, Opened(b, r)) <= Count(log, Closed(b, r)) + 1
  }

  // Opens and closes of the reader take turns, an open first.
  ghost predicate Alternates(log: seq<Event>, b: string, r: string) {
    forall n: nat :: n <= |log| ==> Tight(log[..n], b, r)
  }

  lemma AlternatesAppend(log: seq<Event>, e: Event, b: string, r: string)
    ensures Alternates(log + [e], b, r) <==> Alternates(log, b, r) && Tight(log + [e], b, r)
  {
    var all := log + [e];
    forall n: nat | n <= |log| ensures all[..n] == log[..n] {
    }
    assert all[..|all|] == all;
    if Alternates(all, b, r) {
      forall n: nat | n <= |log| ensures Tight(log[..n], b, r) {
        assert Tight(all[..n], b, r);
      }
      assert Tight(all[..|all|], b, r);
    }
  }

  // One event: others change nothing, an open needs as many closes as opens before it, a close more opens.
  lemma AlternatesEvent(log: seq<Event>, e: Event, b: string, r: string)
    ensures var opens, closes := Count(log, Opened(b, r)), Count(log, Closed(b, r));
            Alternates(log + [e], b, r) <==>
              Alternates(log, b, r) && (e == Opened(b, r) ==> opens <= closes) && (e == Closed(b, r) ==> closes < opens)
  {
    AlternatesAppend(log, e, b, r);
    CountLast(log, e, Opened(b, r));
    CountLast(log, e, Closed(b, r));
    if Alternates(log, b, r) {
      assert log[..|log|] == log;
      assert Tight(log[..|log|], b, r);
    }
  }

  // A start that finds its reader closed and opens it.
  predicate Opens(s: State, a: Action, b: string, r: string) {
    a.Start? && Key(a.backend) == b && a.reader == r
    && CanStart(s, a.stream, r, b, a.openOk) && MustOpen(s.backends[b], r)
  }

  lemma OpenKeepsAlternation(s: State, b0: string, reader: string, last: Event, b: string, r: string)
    requires Balanced(s.backends, s.teardowns, s.log, b, r) && b0 in s.backends
    requires last.Started? || (last == Closed(b0, reader) && MustOpen(s.backends[b0], reader))
    ensures var early := MustOpen(s.backends[b0], reader) && b == b0 && r == reader && Pending(s.teardowns, b, r) != {};
            Alternates(s.log + OpenEvents(s.backends[b0], b0, reader) + [last], b, r) <==>
              Alternates(s.log, b, r) && !early
  {
    var be := s.backends[b0];
    if MustOpen(be, reader) {
      var open := Opened(b0, reader);
      AlternatesEvent(s.log, open, b, r);
      AlternatesEvent(s.log + [open], last, b, r);
      CountLast(s.log, open, Opened(b, r));
      CountLast(s.log, open, Closed(b, r));
    } else {
      assert s.log + [] == s.log;
      AlternatesEvent(s.log, last, b, r);
    }
  }

  lemma StartAlternates(s: State, a: Action, b: string, r: string)
    requires Inv(s) && a.Start? && CanStart(s, a.stream, a.reader, Key(a.backend), a.openOk)
    ensures Alternates(Apply(s, a).log, b, r)
       <==> Alternates(s.log, b, r) && !(Opens(s, a, b, r) && Pending(s.teardowns, b, r) != {})
  {
    var b0 := Key(a.backend);
    var be := s.backends[b0];
    var open := OpenEvents(be, b0, a.reader);
    assert Balanced(s.backends, s.teardowns, s.log, b, r);
    if be.builtin {
      assert s.log + [] == s.log;
    } else if Succeeds(a.reply) {
      Associate(s.log, open, [Started(b0, a.stream)]);
      OpenKeepsAlternation(s, b0, a.reader, Started(b0, a.stream), b, r);
    } else {
      RollBackChangesNoRefs(s, a.reader, b0, open);
      if MustOpen(be, a.reader) {
        OpenKeepsAlternation(s, b0, a.reader, Closed(b0, a.reader), b, r);
      } else {
        assert s.log + [] + [] == s.log;
      }
    }
  }

  lemma AdvanceAlternates(s: State, stream: string, b: string, r: string)
    requires Inv(s) && stream in s.teardowns
    ensures Alternates(AdvanceStep(s, stream).log, b, r) <==> Alternates(s.log, b, r)
  {
    var t := s.teardowns[stream];
    assert Balanced(s.backends, s.teardowns, s.log, b, r);
    assert TeardownOf(t, s.sessions[stream]);
    if t.phase == BeforeErase {
    } else if NextPhase(t) == InStop {
      AlternatesEvent(s.log, Stopped(t.backend, stream), b, r);
    } else if NextPhase(t) == InClose {
      AlternatesEvent(s.log, Closed(t.backend, t.reader), b, r);
      if t.backend == b && t.reader == r {
        assert stream in Pending(s.teardowns, b, r);
      }
    } else {
      assert s.log + [] == s.log;
    }
  }

  // One step breaks the alternation exactly by opening a reader that a teardown will still close.
  lemma StepAlternates(s: State, a: Action, b: string, r: string)
    requires Inv(s)
    ensures Alternates(Apply(s, a).log, b, r)
       <==> Alternates(s.log, b, r) && !(Opens(s, a, b, r) && Pending(s.teardowns, b, r) != {})
  {
    match a
    case Configure(plugins) =>
      if s.sessions == map[] {
        AlternatesEvent(s.log, Unloaded(s.backends.Keys - Builtins(s.backends).Keys), b, r);
      }
    case Start(stream, reader, backend, openOk, reply) =>
      if CanStart(s, stream, reader, Key(backend), openOk) { StartAlternates(s, a, b, r); }
    case Advance(stream) =>
      if stream in s.teardowns { AdvanceAlternates(s, stream, b, r); }
    case _ =>
  }

  // Some step of the run opens the reader while a teardown has its close still to make.
  ghost predicate OpensEarly(s: State, actions: seq<Action>, b: string, r: string)
    decreases |actions|
  {
    actions != []
    && ((Opens(s, actions[0], b, r) && Pending(s.teardowns, b, r) != {})
        || OpensEarly(Apply(s, actions[0]), actions[1..], b, r))
  }

  lemma {:induction false} RunAlternates(s: State, actions: seq<Action>, b: string, r: string)
    requires Inv(s)
    ensures Alternates(Exec(s, actions).log, b, r) <==> Alternates(s.log, b, r) && !OpensEarly(s, actions, b, r)
    decreases |actions|
  {
    if actions != [] {
      StepKeepsInv(s, actions[0]);
      StepAlternates(s, actions[0], b, r);
      RunAlternates(Apply(s, actions[0]), actions[1..], b, r);
    }
  }

  // MAIN: opens and closes of a reader alternate over a run exactly when no start of it opens the
  // reader while a teardown that will close it is still under way.
  lemma AlternatesExactlyWithoutEarlyOpens(actions: seq<Action>, b: string, r: string)
    ensures Alternates(Exec(INITIAL, actions).log, b, r) <==> !OpensEarly(INITIAL, actions, b, r)
  {
    InitialInv();
    RunAlternates(INITIAL, actions, b, r);
    assert INITIAL.log[..0] == [];
  }

  // ----- When calls on one reader never overlap ----------------------------------------------------

  // A teardown that took the last reference and has not come back from close_reader.
  predicate Unclosed(t: Teardown, b: string, r: string) {
    t.close && !t.builtin && t.backend == b && t.reader == r && t.phase != BeforeErase
  }

  ghost predicate AllClosed(teardowns: map<string, Teardown>, b: string, r: string) {
    forall id :: id in teardowns ==> !Unclosed(teardowns[id], b, r)
  }

  // The threads inside close_reader of this reader.
  ghost function Closing(teardowns: map<string, Teardown>, b: string, r: string): set<string> {
    set id | id in teardowns && var t := teardowns[id]; t.phase == InClose && t.backend == b && t.reader == r
  }

  // A start that calls open_reader, whether the plugin opens it or not.
  predicate CallsOpen(s: State, a: Action, b: string, r: string) {
    a.Start? && Key(a.backend) == b && a.reader == r
    && a.stream !in s.sessions && b in s.backends && MustOpen(s.backends[b], r)
  }

  predicate CallsClose(s: State, a: Action, b: string, r: string) {
    a.Advance? && a.stream in s.teardowns
    && var t := s.teardowns[a.stream]; t.phase == BeforeClose && t.backend == b && t.reader == r
  }

  // Some step of the run calls open_reader while a teardown is not yet through with the reader.
  ghost predicate CallsOpenEarly(s: State, actions: seq<Action>, b: string, r: string)
    decreases |actions|
  {
    actions != []
    && ((CallsOpen(s, actions[0], b, r) && !AllClosed(s.teardowns, b, r))
        || CallsOpenEarly(Apply(s, actions[0]), actions[1..], b, r))
  }

  // Every call of open_reader finds as many closes that have come back as successful opens.
  ghost predicate OpensInTurn(s: State, actions: seq<Action>, b: string, r: string)
    decreases |actions|
  {
    actions != [] ==>
      && (CallsOpen(s, actions[0], b, r) ==>
            Count(s.log, Opened(b, r)) == Count(s.log, Closed(b, r)) - |Closing(s.teardowns, b, r)|)
      && OpensInTurn(Apply(s, actions[0]), actions[1..], b, r)
  }

  // Some step of the run calls the plugin for the reader while close_reader is running for it.
  ghost predicate CallsOverlap(s: State, actions: seq<Action>, b: string, r: string)
    decreases |actions|
  {
    actions != []
    && (((CallsOpen(s, actions[0], b, r) || CallsClose(s, actions[0], b, r)) && Closing(s.teardowns, b, r) != {})
        || CallsOverlap(Apply(s, actions[0]), actions[1..], b, r))
  }

  lemma OpenFindsAllClosed(s: State, a: Action, b: string, r: string)
    requires Inv(s) && CallsOpen(s, a, b, r)
    ensures Count(s.log, Opened(b, r)) == Count(s.log, Closed(b, r)) - |Closing(s.teardowns, b, r)|
       <==> AllClosed(s.teardowns, b, r)
  {
    var pending, closing := Pending(s.teardowns, b, r), Closing(s.teardowns, b, r);
    assert Balanced(s.backends, s.teardowns, s.log, b, r);
    if AllClosed(s.teardowns, b, r) {
      assert pending == {} && closing == {};
    } else {
      var id :| id in s.teardowns && Unclosed(s.teardowns[id], b, r);
      assert id in pending || id in closing;
    }
  }

  // The reader is in use, or one thread is closing it, or neither.
  ghost predicate UsedInTurn(s: State, b: string, r: string) {
    && (forall i, j | i in s.teardowns && j in s.teardowns ::
          Unclosed(s.teardowns[i], b, r) && Unclosed(s.teardowns[j], b, r) ==> i == j)
    && (Held(s.backends, b, r) ==> AllClosed(s.teardowns, b, r))
  }

  lemma StartUsesInTurn(s: State, a: Action, b: string, r: string)
    requires Inv(s) && UsedInTurn(s, b, r) && a.Start?
    requires CallsOpen(s, a, b, r) ==> AllClosed(s.teardowns, b, r)
    ensures UsedInTurn(Apply(s, a), b, r)
  {
    var b0 := Key(a.backend);
    if CanStart(s, a.stream, a.reader, b0, a.openOk) {
      var be := s.backends[b0];
      if !be.builtin && !Succeeds(a.reply) { RollBackChangesNoRefs(s, a.reader, b0, OpenEvents(be, b0, a.reader)); }
      assert Apply(s, a).teardowns == s.teardowns;
    }
  }

  lemma StopUsesInTurn(s: State, stream: string, b: string, r: string)
    requires Inv(s) && UsedInTurn(s, b, r)
    ensures UsedInTurn(StopBeginStep(s, stream), b, r)
  {
    if stream in s.sessions && !s.sessions[stream].stopping { UserHoldsReader(s, stream); }
  }

  lemma AdvanceUsesInTurn(s: State, stream: string, b: string, r: string)
    requires Inv(s) && UsedInTurn(s, b, r)
    ensures UsedInTurn(AdvanceStep(s, stream), b, r)
  {
  }

  lemma StepUsesInTurn(s: State, a: Action, b: string, r: string)
    requires Inv(s) && UsedInTurn(s, b, r)
    requires CallsOpen(s, a, b, r) ==> AllClosed(s.teardowns, b, r)
    ensures UsedInTurn(Apply(s, a), b, r)
  {
    match a
    case Configure(_) =>
    case Start(_, _, _, _, _) => StartUsesInTurn(s, a, b, r);
    case StopBegin(stream) => StopUsesInTurn(s, stream, b, r);
    case Advance(stream) => AdvanceUsesInTurn(s, stream, b, r);
    case _ =>
  }

  lemma InTurnNothingOverlaps(s: State, a: Action, b: string, r: string)
    requires Inv(s) && UsedInTurn(s, b, r)
    requires CallsOpen(s, a, b, r) ==> AllClosed(s.teardowns, b, r)
    ensures CallsOpen(s, a, b, r) || CallsClose(s, a, b, r) ==> Closing(s.teardowns, b, r) == {}
  {
    if Closing(s.teardowns, b, r) != {} {
      var id :| id in Closing(s.teardowns, b, r);
      assert Unclosed(s.teardowns[id], b, r);
      if CallsClose(s, a, b, r) { assert Unclosed(s.teardowns[a.stream], b, r); }
    }
  }

  lemma {:induction false} RunUsesInTurn(s: State, actions: seq<Action>, b: string, r: string)
    requires Inv(s)
    ensures OpensInTurn(s, actions, b, r) <==> !CallsOpenEarly(s, actions, b, r)
    ensures UsedInTurn(s, b, r) && !CallsOpenEarly(s, actions, b, r) ==> !CallsOverlap(s, actions, b, r)
    decreases |actions|
  {
    if actions != [] {
      var a := actions[0];
      StepKeepsInv(s, a);
      RunUsesInTurn(Apply(s, a), actions[1..], b, r);
      if CallsOpen(s, a, b, r) { OpenFindsAllClosed(s, a, b, r); }
      if UsedInTurn(s, b, r) && !CallsOpenEarly(s, actions, b, r) {
        StepUsesInTurn(s, a, b, r);
        InTurnNothingOverlaps(s, a, b, r);
      }
    }
  }

  // MAIN: opens of a reader wait for the closes before them to come back, over a whole run, exactly when
  // no start calls open_reader while a teardown that took the last reference has not come back from
  // close_reader. Then calls of the plugin for this reader never overlap.
  lemma OpensInTurnExactlyWithoutEarlyCalls(actions: seq<Action>, b: string, r: string)
    ensures OpensInTurn(INITIAL, actions, b, r) <==> !CallsOpenEarly(INITIAL, actions, b, r)
    ensures !CallsOpenEarly(INITIAL, actions, b, r) ==> !CallsOverlap(INITIAL, actions, b, r)
  {
    InitialInv();
    RunUsesInTurn(INITIAL, actions, b, r);
  }

  // ----- A close can follow the open of a later service ------------------------------------------

  function LateCloseRun(a: string, c: string, b: string, r: string): seq<Action> {
    [StopBegin(a)] + ([Start(c, r, b, true, Done)] + ([Advance(a)] + ([Advance(a)] + ([Advance(a)] + []))))
  }

  lemma FiveActions(s: State, a: string, c: string, b: string, r: string)
    requires b != ""
    ensures Exec(s, LateCloseRun(a, c, b, r))
         == AdvanceStep(AdvanceStep(AdvanceStep(StartStep(StopBeginStep(s, a), c, r, b, true, Done), a), a), a)
  {
    var s1 := StopBeginStep(s, a);
    var s2 := StartStep(s1, c, r, b, true, Done);
    var s3 := AdvanceStep(s2, a);
    var s4 := AdvanceStep(s3, a);
    var x := Advance(a);
    ExecTwo(s, StopBegin(a), [Start(c, r, b, true, Done)] + ([x] + ([x] + ([x] + []))));
    ExecTwo(s1, Start(c, r, b, true, Done), [x] + ([x] + ([x] + [])));
    ExecTwo(s2, x, [x] + ([x] + []));
    ExecTwo(s3, x, [x] + []);
    ExecTwo(s4, x, []);
  }

  // The three plugin-call steps of a teardown that closes its reader.
  lemma TeardownCloses(s: State, a: string)
    requires a in s.teardowns && s.teardowns[a].phase == BeforeStop && !s.teardowns[a].builtin && s.teardowns[a].close
    ensures var u, t := AdvanceStep(AdvanceStep(AdvanceStep(s, a), a), a), s.teardowns[a];
            u.log == s.log + [Stopped(t.backend, a)] + [] + [Closed(t.backend, t.reader)]
            && u.backends == s.backends && u.sessions == s.sessions
  {
  }

  lemma LastUserStops(s: State, a: string)
    requires Inv(s) && a in s.sessions && !s.sessions[a].stopping && s.sessions[a].backend != PASSTHROUGH
    requires Users(s.sessions, s.sessions[a].backend, s.sessions[a].reader) == {a}
    ensures var u, session := StopBeginStep(s, a), s.sessions[a];
            && u.teardowns == s.teardowns[a := Teardown(session.reader, session.backend, false, true, BeforeStop)]
            && session.backend in u.backends && session.reader !in u.backends[session.backend].refs
            && !u.backends[session.backend].builtin
            && u.log == s.log && u.sessions.Keys == s.sessions.Keys
  {
    var session := s.sessions[a];
    assert RefCounts(s.backends, s.sessions, session.backend, session.reader);
    DecOk(s.backends[session.backend].refs, {a}, a, session.reader);
  }

  lemma StartReopens(s: State, c: string, b: string, r: string)
    requires c !in s.sessions && b in s.backends && r !in s.backends[b].refs && !s.backends[b].builtin
    ensures var u := StartStep(s, c, r, b, true, Done);
            && u.log == s.log + [Opened(b, r), Started(b, c)]
            && Held(u.backends, b, r) && u.teardowns == s.teardowns
            && c in u.sessions && !u.sessions[c].stopping
  {
    assert s.log + ([Opened(b, r)] + [Started(b, c)]) == s.log + [Opened(b, r), Started(b, c)];
  }

  // The last user of a reader is being torn down when stream `c` starts on it: the plugin sees
  // open, open, close, and `c` runs on a reader whose last call was close_reader.
  lemma LateClose(s: State, a: string, c: string, b: string, r: string)
    requires Inv(s) && b != PASSTHROUGH && b != ""
    requires a in s.sessions && !s.sessions[a].stopping && s.sessions[a].backend == b && s.sessions[a].reader == r
    requires Users(s.sessions, b, r) == {a} && c !in s.sessions
    ensures var u := Exec(s, LateCloseRun(a, c, b, r));
            && c in u.sessions && !u.sessions[c].stopping && Held(u.backends, b, r)
            && u.log == s.log + [Opened(b, r), Started(b, c), Stopped(b, a), Closed(b, r)]
  {
    var s1 := StopBeginStep(s, a);
    LastUserStops(s, a);
    StartReopens(s1, c, b, r);
    FiveActions(s, a, c, b, r);
    TeardownCloses(StartStep(s1, c, r, b, true, Done), a);
    var o, o', x, x' := Opened(b, r), Started(b, c), Stopped(b, a), Closed(b, r);
    assert s.log + [o, o'] + [x] + [] + [x'] == s.log + [o, o', x, x'];
  }

  // Such states are reached: one plugin, one stream.
  const CONFIGURE_ONE := Configure(map["p" := true])
  const START_ONE := Start("a", "r", "p", true, Done)

  const ONE_USER := Apply(Apply(INITIAL, CONFIGURE_ONE), START_ONE)

  lemma OneUser()
    ensures Inv(ONE_USER) && Users(ONE_USER.sessions, "p", "r") == {"a"} && ONE_USER.sessions.Keys == {"a"}
    ensures var session := ONE_USER.sessions["a"]; !session.stopping && session.backend == "p" && session.reader == "r"
  {
    var s1 := Apply(INITIAL, CONFIGURE_ONE);
    assert "p" != PASSTHROUGH;
    assert s1.backends["p"] == Backend(false, true, map[]);
    assert Apply(s1, START_ONE).sessions == map["a" := NewSession(s1.backends["p"], "p", "r", Done)];
    InitialInv();
    StepKeepsInv(INITIAL, CONFIGURE_ONE);
    StepKeepsInv(s1, START_ONE);
  }

  predicate ClosedLast(s: State, b: string, r: string) {
    s.log != [] && s.log[|s.log| - 1] == Closed(b, r)
  }

  lemma OneUserReaches(run: seq<Action>, u: State)
    requires u == Exec(ONE_USER, run)
    ensures exists actions :: Exec(INITIAL, actions) == u
  {
    ExecTwo(INITIAL, CONFIGURE_ONE, [START_ONE] + run);
    ExecTwo(Apply(INITIAL, CONFIGURE_ONE), START_ONE, run);
  }

  lemma CloseAfterALaterOpen()
    ensures exists actions ::
              Held(Exec(INITIAL, actions).backends, "p", "r") && ClosedLast(Exec(INITIAL, actions), "p", "r")
  {
    assert "p" != PASSTHROUGH && "b" != "a";
    OneUser();
    var run := LateCloseRun("a", "b", "p", "r");
    LateClose(ONE_USER, "a", "b", "p", "r");
    OneUserReaches(run, Exec(ONE_USER, run));
  }

  // ----- stopAll --------------------------------------------------------------------------------

  // stopService of one stream with nothing in between; a finished teardown makes no further steps.
  function StopOne(s: State, stream: string): State {
    Exec(StopBeginStep(s, stream), seq(5, _ => Advance(stream)))
  }

  function StopEach(s: State, streams: seq<string>): State
    decreases |streams|
  {
    if streams == [] then s else StopEach(StopOne(s, streams[0]), streams[1..])
  }

  lemma ExecTwo(s: State, a: Action, more: seq<Action>)
    ensures Exec(s, [a] + more) == Exec(Apply(s, a), more)
  {
    assert ([a] + more)[1..] == more;
  }

  lemma FiveSteps(s: State, stream: string)
    ensures Exec(s, seq(5, _ => Advance(stream)))
         == AdvanceStep(AdvanceStep(AdvanceStep(AdvanceStep(AdvanceStep(s, stream), stream), stream), stream), stream)
  {
    var a := Advance(stream);
    assert seq(5, _ => Advance(stream)) == [a] + ([a] + ([a] + ([a] + ([a] + []))));
    var s1 := Apply(s, a);
    var s2 := Apply(s1, a);
    var s3 := Apply(s2, a);
    var s4 := Apply(s3, a);
    ExecTwo(s, a, [a] + ([a] + ([a] + ([a] + []))));
    ExecTwo(s1, a, [a] + ([a] + ([a] + [])));
    ExecTwo(s2, a, [a] + ([a] + []));
    ExecTwo(s3, a, [a] + []);
    ExecTwo(s4, a, []);
  }

  // How many steps a teardown in a phase still makes.
  function LaterSteps(phase: Phase, t: Teardown): nat {
    match phase
    case BeforeStop => 5
    case InStop => if t.close then 4 else 2
    case BeforeClose => 3
    case InClose => 2
    case BeforeErase => 1
  }

  // A step either finishes the teardown, erasing the session, or brings it one step nearer.
  lemma AdvanceProgress(s: State, stream: string)
    requires Inv(s) && stream in s.teardowns
    ensures var u, t := AdvanceStep(s, stream), s.teardowns[stream];
            if LaterSteps(t.phase, t) == 1 then
              u.teardowns == s.teardowns - {stream} && u.sessions == s.sessions - {stream}
            else
              && u.sessions == s.sessions && stream in u.teardowns
              && u.teardowns == s.teardowns[stream := u.teardowns[stream]]
              && LaterSteps(u.teardowns[stream].phase, u.teardowns[stream]) < LaterSteps(t.phase, t)
  {
    assert TeardownOf(s.teardowns[stream], s.sessions[stream]);
  }

  function AdvanceTimes(s: State, stream: string, n: nat): State
    decreases n
  {
    if n == 0 then s else AdvanceTimes(AdvanceStep(s, stream), stream, n - 1)
  }

  lemma {:induction false} TeardownFinishes(s: State, stream: string, n: nat)
    requires Inv(s) && s.teardowns.Keys <= {stream}
    requires stream in s.teardowns ==> LaterSteps(s.teardowns[stream].phase, s.teardowns[stream]) <= n
    ensures var u := AdvanceTimes(s, stream, n);
            && Inv(u) && u.teardowns == map[]
            && u.sessions == if stream in s.teardowns then s.sessions - {stream} else s.sessions
    decreases n
  {
    if stream in s.teardowns {
      AdvanceProgress(s, stream);
      AdvanceKeepsInv(s, stream);
      TeardownFinishes(AdvanceStep(s, stream), stream, n - 1);
    } else if n > 0 {
      assert AdvanceStep(s, stream) == s;
      TeardownFinishes(s, stream, n - 1);
    } else {
      assert s.teardowns == map[];
    }
  }

  lemma StopOneRemoves(s: State, stream: string)
    requires Inv(s) && s.teardowns == map[]
    ensures var u := StopOne(s, stream);
            Inv(u) && u.teardowns == map[] && u.sessions == s.sessions - {stream}
  {
    var begun := StopBeginStep(s, stream);
    StopBeginKeepsInv(s, stream);
    FiveSteps(begun, stream);
    TeardownFinishes(begun, stream, 5);
    assert StopOne(s, stream) == AdvanceTimes(begun, stream, 5);
    if stream in s.sessions {
      assert !s.sessions[stream].stopping;
      assert begun.sessions - {stream} == s.sessions - {stream};
    } else {
      assert begun == s;
      assert s.sessions - {stream} == s.sessions;
    }
  }

  lemma {:induction false} StopEachRemoves(s: State, streams: seq<string>)
    requires Inv(s) && s.teardowns == map[]
    ensures var u := StopEach(s, streams);
            Inv(u) && u.teardowns == map[] && u.sessions.Keys == s.sessions.Keys - (set id | id in streams)
    decreases |streams|
  {
    if streams != [] {
      StopOneRemoves(s, streams[0]);
      StopEachRemoves(StopOne(s, streams[0]), streams[1..]);
      assert (set id | id in streams) == {streams[0]} + (set id | id in streams[1..]);
    }
  }

  // MAIN: stopAll on a manager no other thread is using leaves no session, no referenced reader,
  // as many closes as opens, and every service stopped.
  lemma StopAllLeavesNothing(actions: seq<Action>, streams: seq<string>, b: string, r: string, stream: string)
    requires var s := Exec(INITIAL, actions);
             s.teardowns == map[] && forall id :: id in s.sessions ==> id in streams
    ensures var u := StopEach(Exec(INITIAL, actions), streams);
            && u.sessions == map[] && u.teardowns == map[]
            && (b in u.backends ==> r !in u.backends[b].refs)
            && Count(u.log, Opened(b, r)) == Count(u.log, Closed(b, r))
            && Replay(u.log, stream) == Idle
  {
    var s := Exec(INITIAL, actions);
    ReachableInv(actions);
    StopEachRemoves(s, streams);
    var u := StopEach(s, streams);
    assert u.sessions.Keys == {};
    assert RefCounts(u.backends, u.sessions, b, r);
    assert Users(u.sessions, b, r) == {};
    assert Pending(u.teardowns, b, r) == {};
    assert Balanced(u.backends, u.teardowns, u.log, b, r);
    assert InService(u.sessions, u.teardowns, u.log, stream);
  }

  // The plugin calls a teardown makes in all.
  function TeardownCalls(t: Teardown, stream: string): seq<Event> {
    if t.builtin then []
    else [Stopped(t.backend, stream)] + if t.close then [Closed(t.backend, t.reader)] else []
  }

  lemma {:induction false} AdvanceOnce(s: State, stream: string, n: nat)
    ensures AdvanceTimes(s, stream, n + 1) == AdvanceStep(AdvanceTimes(s, stream, n), stream)
    decreases n
  {
    if n > 0 { AdvanceOnce(AdvanceStep(s, stream), stream, n - 1); }
  }

  // The steps those calls are: entering and leaving each.
  function CallSteps(t: Teardown): nat {
    if t.builtin then 1 else if t.close then 4 else 2
  }

  lemma StopCallIsAdvances(s: State, stream: string, t: Teardown)
    requires stream in s.teardowns && s.teardowns[stream] == t && t.phase == BeforeStop && !t.builtin
    ensures AdvanceTimes(s, stream, 2)
         == s.(teardowns := s.teardowns[stream := t.(phase := if t.close then BeforeClose else BeforeErase)],
               log := s.log + [Stopped(t.backend, stream)])
  {
    var called := s.log + [Stopped(t.backend, stream)];
    AdvanceOnce(s, stream, 0);
    AdvanceOnce(s, stream, 1);
    assert AdvanceStep(s, stream) == s.(teardowns := s.teardowns[stream := t.(phase := InStop)], log := called);
    assert called + [] == called;
  }

  lemma CloseCallIsAdvances(s: State, stream: string, t: Teardown)
    requires stream in s.teardowns && s.teardowns[stream] == t && t.phase == BeforeClose
    ensures AdvanceStep(AdvanceStep(s, stream), stream)
         == s.(teardowns := s.teardowns[stream := t.(phase := BeforeErase)],
               log := s.log + [Closed(t.backend, t.reader)])
  {
    var called := s.log + [Closed(t.backend, t.reader)];
    assert AdvanceStep(s, stream) == s.(teardowns := s.teardowns[stream := t.(phase := InClose)], log := called);
    assert called + [] == called;
  }

  lemma CallsAreAdvances(s: State, stream: string, t: Teardown)
    requires stream in s.teardowns && s.teardowns[stream] == t && t.phase == BeforeStop
    ensures AdvanceTimes(s, stream, CallSteps(t))
         == s.(teardowns := s.teardowns[stream := t.(phase := BeforeErase)], log := s.log + TeardownCalls(t, stream))
  {
    if t.builtin {
      AdvanceOnce(s, stream, 0);
      assert s.log + [] == s.log;
    } else {
      StopCallIsAdvances(s, stream, t);
      if t.close {
        var u := AdvanceTimes(s, stream, 2);
        AdvanceOnce(s, stream, 2);
        AdvanceOnce(s, stream, 3);
        CloseCallIsAdvances(u, stream, u.teardowns[stream]);
        assert u.log + [Closed(t.backend, t.reader)] == s.log + TeardownCalls(t, stream);
      }
    }
  }

  lemma {:induction false} AdvanceTimesKeepsInv(s: State, stream: string, n: nat)
    requires Inv(s)
    ensures Inv(AdvanceTimes(s, stream, n))
    decreases n
  {
    if n > 0 {
      AdvanceKeepsInv(s, stream);
      AdvanceTimesKeepsInv(AdvanceStep(s, stream), stream, n - 1);
    }
  }

  // The session's backend is always loaded, so the early erase of stopService is never taken.
  lemma StopNeedsNoBackendCheck(s: State, stream: string)
    requires Inv(s) && stream in s.sessions
    ensures s.sessions[stream].backend in s.backends
  {
  }

  // The plugin calls of an uninterrupted stopService: stop the service, and close the reader if no
  // other service uses it.
  ghost function StopCalls(sessions: map<string, Session>, stream: string): seq<Event>
    requires stream in sessions
  {
    var session := sessions[stream];
    if session.backend == PASSTHROUGH then []
    else if Users(sessions, session.backend, session.reader) == {stream}
      then [Stopped(session.backend, stream), Closed(session.backend, session.reader)]
      else [Stopped(session.backend, stream)]
  }

  // What stopService takes away: the reader is to be closed exactly by its last user.
  lemma StopBeginWork(s: State, stream: string)
    requires Inv(s) && stream in s.sessions && !s.sessions[stream].stopping
    ensures var u := StopBeginStep(s, stream);
            && stream in u.teardowns && u.teardowns - {stream} == s.teardowns && u.log == s.log
            && u.teardowns[stream].phase == BeforeStop
            && TeardownCalls(u.teardowns[stream], stream) == StopCalls(s.sessions, stream)
            && stream in u.sessions && u.sessions[stream].stopping && u.sessions - {stream} == s.sessions - {stream}
  {
    var session := s.sessions[stream];
    assert RefCounts(s.backends, s.sessions, session.backend, session.reader);
    assert stream in Users(s.sessions, session.backend, session.reader);
    DecOk(s.backends[session.backend].refs, Users(s.sessions, session.backend, session.reader), stream, session.reader);
  }

  // ----- The manager object ---------------------------------------------------------------------

  class Manager {
    var backends: map<string, Backend>
    var sessions: map<string, Session>
    ghost var teardowns: map<string, Teardown>      // the locals of threads inside stopService
    ghost var log: seq<Event>

    ghost function View(): State
      reads this
    {
      State(backends, sessions, teardowns, log)
    }

    constructor ()
      ensures View() == INITIAL
    {
      backends := map[PASSTHROUGH := Backend(true, false, map[])];
      sessions, teardowns, log := map[], map[], [];
    }

    method Configure(plugins: map<string, bool>)
      modifies this
      ensures View() == Apply(old(View()), Action.Configure(plugins))
    {
      if sessions != map[] { return; }
      var kept := map id | id in backends && backends[id].builtin :: backends[id];
      log := log + [Unloaded(backends.Keys - kept.Keys)];
      backends := kept + Fresh(plugins, kept);
    }

    // ensureReaderOpenLocked: the first service of a reader opens it.
    method EnsureReaderOpen(b: string, reader: string, openOk: bool) returns (ok: bool)
      requires b in backends
      modifies this`backends, this`log
      ensures ok == (MustOpen(old(backends)[b], reader) ==> openOk)
      ensures if ok then
                && log == old(log) + OpenEvents(old(backends)[b], b, reader)
                && backends == old(backends)[b := old(backends)[b].(refs := Inc(old(backends)[b].refs, reader))]
              else log == old(log) && backends == old(backends)
    {
      var be := backends[b];
      if be.builtin {
        backends := backends[b := be.(refs := Inc(be.refs, reader))];
        assert log == log + [];
        return true;
      }
      if reader in be.refs {
        backends := backends[b := be.(refs := be.refs[reader := be.refs[reader] + 1])];
        assert log == log + [];
        return true;
      }
      if !openOk { return false; }
      log := log + [Opened(b, reader)];
      backends := backends[b := be.(refs := be.refs[reader := 1])];
      ok := true;
    }

    // releaseReaderLocked, as the rollback of a refused start uses it.
    method ReleaseReader(b: string, reader: string)
      requires b in backends
      modifies this`backends, this`log
      ensures backends == old(backends)[b := old(backends)[b].(refs := Dec(old(backends)[b].refs, reader))]
      ensures log == if !old(backends)[b].builtin && Closes(old(backends)[b].refs, reader)
                     then old(log) + [Closed(b, reader)] else old(log)
    {
      var be := backends[b];
      if reader !in be.refs {
        assert backends == backends[b := be.(refs := be.refs)];
        return;
      }
      if be.refs[reader] > 1 {
        backends := backends[b := be.(refs := be.refs[reader := be.refs[reader] - 1])];
        return;
      }
      if !be.builtin { log := log + [Closed(b, reader)]; }
      backends := backends[b := be.(refs := be.refs - {reader})];
    }

    method StartService(stream: string, reader: string, backendId: string, openOk: bool, reply: Reply)
      returns (ok: bool)
      modifies this`backends, this`sessions, this`log
      ensures View() == Apply(old(View()), Start(stream, reader, backendId, openOk, reply))
      ensures ok == (stream in sessions && !sessions[stream].stopping)
    {
      if stream in sessions { return !sessions[stream].stopping; }
      var b := if backendId == "" then PASSTHROUGH else backendId;
      if b !in backends { return false; }
      ok := StartNew(stream, reader, b, openOk, reply);
    }

    method StartNew(stream: string, reader: string, b: string, openOk: bool, reply: Reply) returns (ok: bool)
      requires stream !in sessions && b in backends
      modifies this`backends, this`sessions, this`log
      ensures View() == StartStep(old(View()), stream, reader, b, openOk, reply)
      ensures ok == (stream in sessions) && (ok ==> !sessions[stream].stopping)
    {
      var be := backends[b];
      var open := EnsureReaderOpen(b, reader, openOk);
      if !open { return false; }
      if be.builtin {
        sessions := sessions[stream := NewSession(be, b, reader, Done)];
        return true;
      }
      ok := CallStart(stream, reader, b, be, reply);
      if ok {
        assert log == old(log) + (OpenEvents(be, b, reader) + [Started(b, stream)]);
        assert View() == Attach(old(View()), stream, NewSession(be, b, reader, reply),
                                OpenEvents(be, b, reader) + [Started(b, stream)]);
      } else {
        assert View() == RollBack(old(View()), reader, b, OpenEvents(be, b, reader));
      }
    }

    // start_service of the plugin, and the rollback when it fails.
    method CallStart(stream: string, reader: string, b: string, be: Backend, reply: Reply) returns (ok: bool)
      requires b in backends && !be.builtin && stream !in sessions
      requires backends[b] == be.(refs := Inc(be.refs, reader))
      modifies this`backends, this`sessions, this`log
      ensures ok == Succeeds(reply) == (stream in sessions)
      ensures ok ==> backends == old(backends) && log == old(log) + [Started(b, stream)]
                     && sessions == old(sessions)[stream := NewSession(be, b, reader, reply)]
      ensures !ok ==> sessions == old(sessions)
                      && backends == old(backends)[b := old(backends)[b].(refs := Dec(Inc(be.refs, reader), reader))]
                      && log == old(log) + if Closes(Inc(be.refs, reader), reader) then [Closed(b, reader)] else []
    {
      if reply != Done && reply != Passed {
        ReleaseReader(b, reader);
        return false;
      }
      log := log + [Started(b, stream)];
      sessions := sessions[stream := NewSession(be, b, reader, reply)];
      ok := true;
    }

    method MarkServiceActive(stream: string)
      modifies this`sessions
      ensures View() == Apply(old(View()), MarkActive(stream))
    {
      if stream !in sessions || sessions[stream].stopping { return; }
      sessions := sessions[stream := sessions[stream].(active := true)];
    }

    // The first critical section of stopService; `none` when there is nothing to tear down.
    method BeginStop(stream: string) returns (work: Option<Teardown>)
      modifies this
      ensures View() == Apply(old(View()), StopBegin(stream))
      ensures work.Some? <==> stream in old(sessions) && !old(sessions)[stream].stopping
                              && old(sessions)[stream].backend in old(backends)
      ensures work.Some? ==> stream in teardowns && teardowns[stream] == work.value && work.value.phase == BeforeStop
    {
      if stream !in sessions || sessions[stream].stopping { return None; }
      var session := sessions[stream];
      if session.backend !in backends {
        sessions := sessions - {stream};
        return None;
      }
      sessions := sessions[stream := session.(stopping := true, active := false)];
      var be := backends[session.backend];
      var closeReader := false;
      if session.reader in be.refs {
        if be.refs[session.reader] > 1 {
          backends := backends[session.backend := be.(refs := be.refs[session.reader := be.refs[session.reader] - 1])];
        } else {
          backends := backends[session.backend := be.(refs := be.refs - {session.reader})];
          closeReader := true;
        }
      } else {
        assert backends == backends[session.backend := be.(refs := be.refs)];
      }
      var t := Teardown(session.reader, session.backend, be.builtin, closeReader, BeforeStop);
      teardowns := teardowns[stream := t];
      work := Some(t);
    }

    // The plugin calls of stopService, made without the mutex. Entering and leaving a callback are
    // steps of their own; other threads may run in between.
    method CallPlugin(stream: string, t: Teardown) returns (ghost steps: nat)
      requires stream in teardowns && teardowns[stream] == t && t.phase == BeforeStop
      modifies this`teardowns, this`log
      ensures View() == AdvanceTimes(old(View()), stream, steps)
      ensures teardowns == old(teardowns)[stream := t.(phase := BeforeErase)]
      ensures log == old(log) + TeardownCalls(t, stream)
    {
      ghost var was := View();
      steps := CallSteps(t);
      CallsAreAdvances(was, stream, t);
      if !t.builtin {
        teardowns := teardowns[stream := t.(phase := InStop)];
        log := log + [Stopped(t.backend, stream)];
      }
      if t.close && !t.builtin {
        teardowns := teardowns[stream := t.(phase := InClose)];
        log := log + [Closed(t.backend, t.reader)];
      }
      teardowns := teardowns[stream := t.(phase := BeforeErase)];
      assert teardowns == was.teardowns[stream := t.(phase := BeforeErase)];
      assert log == was.log + TeardownCalls(t, stream);
    }

    // stopService, uninterrupted: the session goes, its service is stopped, and its reader is closed
    // exactly when no other service uses it.
    method StopService(stream: string)
      requires Inv(View())
      modifies this
      ensures Inv(View()) && teardowns == old(teardowns)
      ensures stream !in old(sessions) || old(sessions)[stream].stopping ==> View() == old(View())
      ensures stream in old(sessions) && !old(sessions)[stream].stopping ==>
                && sessions == old(sessions) - {stream}
                && log == old(log) + StopCalls(old(sessions), stream)
    {
      ghost var was := View();
      if stream in was.sessions { StopNeedsNoBackendCheck(was, stream); }
      var work := BeginStop(stream);
      if work.None? { return; }
      StopBeginWork(was, stream);
      ghost var steps := FinishStop(stream, work.value);
      StopBeginKeepsInv(was, stream);
      AdvanceTimesKeepsInv(StopBeginStep(was, stream), stream, steps);
    }

    // The part of stopService behind its first critical section.
    method FinishStop(stream: string, t: Teardown) returns (ghost steps: nat)
      requires stream in teardowns && teardowns[stream] == t && t.phase == BeforeStop
      requires stream in sessions && sessions[stream].stopping
      modifies this`sessions, this`teardowns, this`log
      ensures View() == AdvanceTimes(old(View()), stream, steps)
      ensures sessions == old(sessions) - {stream} && teardowns == old(teardowns) - {stream}
      ensures log == old(log) + TeardownCalls(t, stream)
    {
      ghost var was := View();
      ghost var calls := CallPlugin(stream, t);
      AdvanceOnce(was, stream, calls);
      steps := calls + 1;
      assert teardowns - {stream} == was.teardowns - {stream};
      EndStop(stream);
    }

    // The second critical section of stopService.
    method EndStop(stream: string)
      requires stream in teardowns && teardowns[stream].phase == BeforeErase
      modifies this`sessions, this`teardowns
      ensures View() == AdvanceStep(old(View()), stream)
      ensures teardowns == old(teardowns) - {stream}
      ensures stream in old(sessions) && old(sessions)[stream].stopping ==> sessions == old(sessions) - {stream}
    {
      if stream in sessions && sessions[stream].stopping { sessions := sessions - {stream}; }
      teardowns := teardowns - {stream};
    }

    method ProcessTransport(stream: string, size: nat, reply: Reply) returns (ok: bool)
      modifies this`sessions
      ensures View() == Apply(old(View()), Process(stream, size, reply))
      ensures !ok <==> size > 0 && stream in old(sessions) && !old(sessions)[stream].stopping
                       && (size % 188 != 0
                           || (reply == Failed && old(sessions)[stream].backend in backends
                               && !backends[old(sessions)[stream].backend].builtin))
      ensures size > 0 && stream in old(sessions) && !old(sessions)[stream].stopping ==>
                && stream in sessions
                && sessions[stream].errors == old(sessions)[stream].errors + (if ok then 0 else 1)
                && sessions[stream].bytes == old(sessions)[stream].bytes + size
                && sessions[stream].calls == old(sessions)[stream].calls + 1
    {
      if size == 0 || stream !in sessions || sessions[stream].stopping { return true; }
      var session := sessions[stream].(calls := sessions[stream].calls + 1, bytes := sessions[stream].bytes + size);
      ok := true;
      if size % 188 != 0 {
        session := session.(errors := session.errors + 1);
        ok := false;
      } else if session.backend in backends && !backends[session.backend].builtin {
        match reply
        case Done =>
        case Passed => session := session.(passthrough := true);
        case Retry => session := session.(retries := session.retries + 1);
        case Failed =>
          session := session.(errors := session.errors + 1);
          ok := false;
      }
      sessions := sessions[stream := session];
    }
  }
}
