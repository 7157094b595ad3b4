// What a caller of the conditional-access manager gets.
module CaServices {
  // Which starts succeed and what they register, what buffers do to a session and what a configuration leaves.
  import opened Helpers
  import opened CaBackend

  lemma ExecOne(s: State, a: Action)
    ensures Exec(s, [a]) == Apply(s, a)
  {
    assert [a] == [a] + [];
    ExecTwo(s, a, []);
  }

  // ----- Starting a service ----------------------------------------------------------------

  // The backend is loaded, and it is built in, or its plugin accepts the service on a reader that is in
  // use or opens.
  ghost predicate Accepted(s: State, reader: string, b: string, openOk: bool, reply: Reply) {
    && b in s.backends
    && (s.backends[b].builtin
        || ((reply == Done || reply == Passed) && (Users(s.sessions, b, reader) != {} || openOk)))
  }

  // What a start has come to.
  ghost predicate Yields(s: State, u: State, stream: string, reader: string, b: string, reply: Reply, accepted: bool) {
    && (stream in u.sessions <==> accepted)
    && (accepted ==>
          && b in s.backends && u.sessions == s.sessions[stream := u.sessions[stream]]
          && u.sessions[stream].reader == reader && u.sessions[stream].backend == b
          && !u.sessions[stream].stopping && !u.sessions[stream].active
          && u.sessions[stream].calls == 0 && u.sessions[stream].bytes == 0
          && u.sessions[stream].retries == 0 && u.sessions[stream].errors == 0
          && (u.sessions[stream].passthrough <==>
                s.backends[b].builtin || reply == Passed || !s.backends[b].inplace))
    && (!accepted ==> u.sessions == s.sessions && u.backends == s.backends)
    && u.backends.Keys == s.backends.Keys && u.teardowns == s.teardowns
  }

  lemma AttachYields(s: State, stream: string, reader: string, b: string, events: seq<Event>, reply: Reply)
    requires stream !in s.sessions && b in s.backends
    ensures var u := Attach(s, stream, NewSession(s.backends[b], b, reader, reply), events);
            Yields(s, u, stream, reader, b, reply, true)
  {
  }

  lemma RefusedYields(s: State, stream: string, reader: string, b: string, reply: Reply)
    requires Inv(s) && stream !in s.sessions && b in s.backends
    ensures Yields(s, RollBack(s, reader, b, OpenEvents(s.backends[b], b, reader)), stream, reader, b, reply, false)
  {
    RollBackChangesNoRefs(s, reader, b, OpenEvents(s.backends[b], b, reader));
  }

  // MAIN: in every reachable state a start of a stream without a session yields one exactly when it is
  // accepted. The session is that of the start, and no other session, backend or teardown changes.
  lemma StartYieldsSessionExactly(s: State, stream: string, reader: string, backend: string, openOk: bool, reply: Reply)
    requires Inv(s) && stream !in s.sessions
    ensures var b := if backend == "" then "passthrough" else backend;
            Yields(s, Exec(s, [Start(stream, reader, backend, openOk, reply)]),
                   stream, reader, b, reply, Accepted(s, reader, b, openOk, reply))
  {
    var b := if backend == "" then "passthrough" else backend;
    ExecOne(s, Start(stream, reader, backend, openOk, reply));
    if b in s.backends {
      var be := s.backends[b];
      assert RefCounts(s.backends, s.sessions, b, reader);
      if be.builtin {
        AttachYields(s, stream, reader, b, [], Done);
      } else if reply == Done || reply == Passed {
        AttachYields(s, stream, reader, b, OpenEvents(be, b, reader) + [Started(b, stream)], reply);
      } else {
        RefusedYields(s, stream, reader, b, reply);
      }
    }
  }

  // The services of a reader rise by one with each accepted start, those of other readers stay.
  lemma StartAddsUser(s: State, stream: string, reader: string, backend: string, openOk: bool, reply: Reply,
                      b: string, r: string)
    requires Inv(s) && stream !in s.sessions
    ensures var u := Exec(s, [Start(stream, reader, backend, openOk, reply)]);
            var b0 := if backend == "" then "passthrough" else backend;
            var more := if Accepted(s, reader, b0, openOk, reply) && b == b0 && r == reader then 1 else 0;
            && Inv(u) && |Users(u.sessions, b, r)| == |Users(s.sessions, b, r)| + more
            && (b in u.backends ==> (r in u.backends[b].refs <==> Users(u.sessions, b, r) != {}))
            && (b in u.backends && r in u.backends[b].refs ==> u.backends[b].refs[r] == |Users(u.sessions, b, r)|)
  {
    var a := Start(stream, reader, backend, openOk, reply);
    var u := Exec(s, [a]);
    StartYieldsSessionExactly(s, stream, reader, backend, openOk, reply);
    ExecOne(s, a);
    StepKeepsInv(s, a);
    assert RefCounts(u.backends, u.sessions, b, r);
    if stream in u.sessions { UsersOfNew(s.sessions, stream, u.sessions[stream], b, r); }
  }

  function Starts(streams: seq<string>, reader: string, backend: string, openOk: bool): seq<Action>
    decreases |streams|
  {
    if streams == [] then []
    else [Start(streams[0], reader, backend, openOk, Done)] + Starts(streams[1..], reader, backend, openOk)
  }

  predicate Distinct(streams: seq<string>) {
    forall i, j :: 0 <= i < j < |streams| ==> streams[i] != streams[j]
  }

  // One start on a reader that is in use or opens, and what follows it.
  lemma OneMoreShares(s: State, stream: string, reader: string, backend: string, openOk: bool, rest: seq<Action>)
    returns (t: State)
    requires Inv(s) && backend != "" && backend in s.backends && stream !in s.sessions
    requires openOk || Users(s.sessions, backend, reader) != {}
    ensures Exec(s, [Start(stream, reader, backend, openOk, Done)] + rest) == Exec(t, rest)
    ensures Inv(t) && backend in t.backends && t.sessions.Keys == s.sessions.Keys + {stream}
    ensures |Users(t.sessions, backend, reader)| == |Users(s.sessions, backend, reader)| + 1
  {
    t := Apply(s, Start(stream, reader, backend, openOk, Done));
    ExecOne(s, Start(stream, reader, backend, openOk, Done));
    StartYieldsSessionExactly(s, stream, reader, backend, openOk, Done);
    StartAddsUser(s, stream, reader, backend, openOk, Done, backend, reader);
    ExecTwo(s, Start(stream, reader, backend, openOk, Done), rest);
  }

  ghost function StreamSet(streams: seq<string>): set<string> { set id | id in streams }

  lemma FirstStream(streams: seq<string>, taken: set<string>)
    requires streams != [] && Distinct(streams) && StreamSet(streams) !! taken
    ensures streams[0] !in taken && Distinct(streams[1..])
    ensures StreamSet(streams[1..]) !! (taken + {streams[0]})
    ensures StreamSet(streams) == {streams[0]} + StreamSet(streams[1..])
  {
    var more := streams[1..];
    assert forall i :: 0 <= i < |more| ==> more[i] == streams[i + 1];
    assert streams[0] in StreamSet(streams);
  }

  // What some starts on a reader have come to.
  ghost predicate AllShare(s: State, u: State, streams: seq<string>, b: string, reader: string) {
    && u.sessions.Keys == s.sessions.Keys + StreamSet(streams)
    && |Users(u.sessions, b, reader)| == |Users(s.sessions, b, reader)| + |streams|
  }

  // MAIN: any number of services can share a reader. On a reader that is in use or opens, the starts of
  // any streams without a session all succeed, and the reader counts every one of them.
  lemma {:induction false} ManyServicesShareAReader(
      s: State, streams: seq<string>, reader: string, backend: string, openOk: bool)
    requires Inv(s) && backend != "" && backend in s.backends
    requires Distinct(streams) && StreamSet(streams) !! s.sessions.Keys
    requires openOk || Users(s.sessions, backend, reader) != {}
    ensures AllShare(s, Exec(s, Starts(streams, reader, backend, openOk)), streams, backend, reader)
    decreases |streams|
  {
    if streams == [] {
      assert StreamSet(streams) == {};
    } else {
      FirstStream(streams, s.sessions.Keys);
      var rest := Starts(streams[1..], reader, backend, openOk);
      var t := OneMoreShares(s, streams[0], reader, backend, openOk, rest);
      ManyServicesShareAReader(t, streams[1..], reader, backend, openOk);
      FirstThenRestShare(s, t, Exec(t, rest), streams, backend, reader);
    }
  }

  lemma FirstThenRestShare(s: State, t: State, u: State, streams: seq<string>, b: string, reader: string)
    requires streams != [] && StreamSet(streams) == {streams[0]} + StreamSet(streams[1..])
    requires t.sessions.Keys == s.sessions.Keys + {streams[0]}
    requires |Users(t.sessions, b, reader)| == |Users(s.sessions, b, reader)| + 1
    requires AllShare(t, u, streams[1..], b, reader)
    ensures AllShare(s, u, streams, b, reader)
  {
  }

  // What the plugin is asked to do by a start: open the reader for its first service, start the service,
  // and close the reader again if it refuses the first one.
  lemma StartCallsPlugin(s: State, stream: string, reader: string, b: string, openOk: bool, reply: Reply)
    requires Inv(s) && stream !in s.sessions && b in s.backends && b != "" && !s.backends[b].builtin
    ensures var u := Exec(s, [Start(stream, reader, b, openOk, reply)]);
            var first, accepts := Users(s.sessions, b, reader) == {}, reply == Done || reply == Passed;
            u.log == s.log + (if first && !openOk then []
                              else if first && accepts then [Opened(b, reader), Started(b, stream)]
                              else if first then [Opened(b, reader), Closed(b, reader)]
                              else if accepts then [Started(b, stream)]
                              else [])
  {
    ExecOne(s, Start(stream, reader, b, openOk, reply));
    assert RefCounts(s.backends, s.sessions, b, reader);
    if !Succeeds(reply) { RollBackChangesNoRefs(s, reader, b, OpenEvents(s.backends[b], b, reader)); }
    assert s.log + [Opened(b, reader)] + [Closed(b, reader)] == s.log + [Opened(b, reader), Closed(b, reader)];
    assert s.log + [] + [] == s.log;
  }

  // ----- A session in use ----------------------------------------------------------------------

  // A service becomes active exactly when it is there and not stopping; nothing else changes.
  lemma MarkedActiveExactly(s: State, stream: string)
    ensures var u := Exec(s, [MarkActive(stream)]);
            if stream in s.sessions && !s.sessions[stream].stopping
            then u == s.(sessions := s.sessions[stream := s.sessions[stream].(active := true)])
            else u == s
  {
    ExecOne(s, MarkActive(stream));
  }

  // The first part of a stop marks the session, which stays registered and is active no longer.
  lemma StopMarksExactly(s: State, stream: string)
    requires Inv(s)
    ensures var u := Exec(s, [StopBegin(stream)]);
            if stream in s.sessions && !s.sessions[stream].stopping
            then u.sessions == s.sessions[stream := s.sessions[stream].(stopping := true, active := false)]
            else u == s
  {
    ExecOne(s, StopBegin(stream));
  }

  // A session behind a buffer: every buffer counts; one that is not whole packets is an error; a plugin
  // may pass it through, ask for a retry or fail.
  function WithBuffer(was: Session, size: nat, plugin: bool, reply: Reply): Session {
    var asked := size % 188 == 0 && plugin;
    was.(calls := was.calls + 1, bytes := was.bytes + size,
         passthrough := was.passthrough || (asked && reply == Passed),
         retries := was.retries + (if asked && reply == Retry then 1 else 0),
         errors := was.errors + (if size % 188 != 0 || (asked && reply == Failed) then 1 else 0))
  }

  lemma ProcessedIs(was: Session, be: Backend, size: nat, reply: Reply)
    ensures Processed(was, Some(be), size, reply) == WithBuffer(was, size, !be.builtin, reply)
  {
  }

  // MAIN: what a transport buffer does to its session, and to nothing else.
  lemma BufferCountsExactly(s: State, stream: string, size: nat, reply: Reply)
    requires Inv(s) && stream in s.sessions && !s.sessions[stream].stopping && size > 0
    ensures var was := s.sessions[stream];
            Exec(s, [Process(stream, size, reply)])
              == s.(sessions := s.sessions[stream := WithBuffer(was, size, was.backend != "passthrough", reply)])
  {
    var was := s.sessions[stream];
    ExecOne(s, Process(stream, size, reply));
    assert FindBackend(s, was.backend) == Some(s.backends[was.backend]);
    ProcessedIs(was, s.backends[was.backend], size, reply);
  }

  // Empty buffers, streams without a session and stopping sessions are left alone.
  lemma OtherBuffersAreIgnored(s: State, stream: string, size: nat, reply: Reply)
    requires size == 0 || stream !in s.sessions || s.sessions[stream].stopping
    ensures Exec(s, [Process(stream, size, reply)]) == s
  {
    ExecOne(s, Process(stream, size, reply));
  }

  // ----- Configuration --------------------------------------------------------------------------

  // With sessions nothing changes; without, the backends are the built-in one and the usable plugins,
  // none of them with a reader in use.
  lemma ConfiguredExactly(s: State, plugins: map<string, bool>, b: string)
    requires Inv(s)
    ensures var u := Exec(s, [Configure(plugins)]);
            && (s.sessions != map[] ==> u == s)
            && (s.sessions == map[] ==>
                  && u.log == s.log + [Unloaded(s.backends.Keys - {"passthrough"})]
                  && (b in u.backends <==> b == "passthrough" || (b in plugins && b != ""))
                  && (b in u.backends ==> (u.backends[b].builtin <==> b == "passthrough"))
                  && (b in u.backends && b != "passthrough" ==> u.backends[b].inplace == plugins[b])
                  && (b in u.backends ==> u.backends[b].refs == map[]))
  {
    ExecOne(s, Configure(plugins));
    if s.sessions == map[] {
      var refs := s.backends[PASSTHROUGH].refs;
      forall r: string ensures r !in refs {
        assert RefCounts(s.backends, s.sessions, PASSTHROUGH, r);
        assert Users(s.sessions, PASSTHROUGH, r) == {};
      }
      assert refs == map[];
      assert Builtins(s.backends).Keys == {PASSTHROUGH};
    }
  }
}
