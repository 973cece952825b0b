/**
 * `RCEManager` as the object it is (src/classes/RCEManager.ts): its fields are
 * updated in place by the constructor, `clean`, `processQueue`, the console
 * handler's per-line loop and the socket's event handlers. `Abs()` reads the
 * fields as a `State`, and every method is proved to do what the function of the
 * same name in the other modules does to that state.
 */
module Manager {
  import opened Text
  import opened Lists
  import opened Events
  import opened Pending
  import opened Patterns
  import opened Records
  import opened Sending
  import opened Registry
  import opened Handler
  import opened Connection

  /** Some server among `ks` holds the interval handle `h`. */
  predicate OwnedBy(servers: map<string, Server>, ks: seq<string>, h: nat)
  {
    exists j :: 0 <= j < |ks| && ks[j] in servers && h in servers[ks[j]].intervals
  }

  lemma OwnedByAll(servers: map<string, Server>, ks: seq<string>, h: nat)
    requires forall k :: k in servers <==> k in ks
    ensures OwnedBy(servers, ks, h) <==> Owned(servers, h)
  {
    if Owned(servers, h) {
      var k :| k in servers && h in servers[k].intervals;
      var j :| 0 <= j < |ks| && ks[j] == k;
    }
  }

  lemma OwnedByStep(servers: map<string, Server>, ks: seq<string>, i: nat, h: nat)
    requires i < |ks| && ks[i] in servers
    ensures OwnedBy(servers, ks[..i + 1], h) <==> OwnedBy(servers, ks[..i], h) || h in servers[ks[i]].intervals
  {
    if h in servers[ks[i]].intervals {
      assert ks[..i + 1][i] == ks[i];
    }
    if OwnedBy(servers, ks[..i], h) {
      var j :| 0 <= j < i && ks[..i][j] in servers && h in servers[ks[..i][j]].intervals;
      assert ks[..i + 1][j] == ks[..i][j];
    }
  }

  /** The record half of `clean`'s `servers.forEach`: every record, in insertion order `ks`,
      loses its players and its resolved server id and is no longer added or ready. */
  method ResetServers(servers: map<string, Server>, ks: seq<string>) returns (reset: map<string, Server>)
    requires NoDup(ks) && forall k :: k in servers <==> k in ks
    ensures reset == map k | k in servers :: Cleaned(servers[k])
  {
    reset := servers;
    var i := 0;
    while i < |ks|
      invariant 0 <= i <= |ks|
      invariant reset.Keys == servers.Keys
      invariant forall k :: k in servers ==> reset[k] == if k in ks[..i] then Cleaned(servers[k]) else servers[k]
    {
      var k := ks[i];
      assert k !in ks[..i];
      reset := reset[k := Cleaned(reset[k])];
      assert ks[..i + 1] == ks[..i] + [k];
      i := i + 1;
    }
    assert ks[..i] == ks;
  }

  /** The interval half of `clean`'s `servers.forEach`: the intervals each record holds are
      cleared, record after record, so exactly the intervals no record owns keep running. */
  method StopIntervals(servers: map<string, Server>, intervals: map<nat, Interval>, ks: seq<string>)
      returns (running: map<nat, Interval>)
    requires forall k :: k in servers <==> k in ks
    ensures running == map h | h in intervals && !Owned(servers, h) :: intervals[h]
  {
    running := intervals;
    var i := 0;
    while i < |ks|
      invariant 0 <= i <= |ks|
      invariant running == map h | h in intervals && !OwnedBy(servers, ks[..i], h) :: intervals[h]
    {
      var owned := servers[ks[i]].intervals;
      running := map h | h in running && h !in owned :: running[h];
      forall h ensures OwnedBy(servers, ks[..i + 1], h) <==> OwnedBy(servers, ks[..i], h) || h in owned {
        OwnedByStep(servers, ks, i, h);
      }
      i := i + 1;
    }
    assert ks[..i] == ks;
    forall h ensures OwnedBy(servers, ks, h) <==> Owned(servers, h) {
      OwnedByAll(servers, ks, h);
    }
  }

  lemma UnaddedStep(servers: map<string, Server>, ks: seq<string>, i: nat)
    requires i < |ks|
    ensures Unadded(servers, ks[i..])
         == (if ks[i] in servers && !servers[ks[i]].added then [OptionsOf(servers[ks[i]])] else [])
            + Unadded(servers, ks[i + 1..])
  {
    assert ks[i..][0] == ks[i] && ks[i..][1..] == ks[i + 1..];
  }

  lemma UnaddedNil(servers: map<string, Server>)
    ensures Unadded(servers, []) == []
  {
  }

  /** The walk over the records in insertion order that appends the options of every record
      not added to `adds`. */
  method CollectUnadded(servers: map<string, Server>, keys: seq<string>, adds: seq<ServerOptions>)
    returns (r: seq<ServerOptions>)
    ensures r == adds + Unadded(servers, keys)
  {
    hide Unadded;
    r := adds;
    var i := 0;
    while i < |keys|
      invariant 0 <= i <= |keys|
      invariant r + Unadded(servers, keys[i..]) == adds + Unadded(servers, keys)
    {
      UnaddedStep(servers, keys, i);
      if keys[i] in servers && !servers[keys[i]].added {
        r := r + [OptionsOf(servers[keys[i]])];
      }
      i := i + 1;
    }
    assert keys[i..] == [];
    UnaddedNil(servers);
  }

  /** What the JavaScript runtime holds for the manager outside its own fields: the promises it
      handed out, the timers, intervals, requests and callbacks still to come, and the events
      emitted so far. */
  datatype Runtime = Runtime(
    settled: map<nat, Settlement>, nextPromise: nat, sends: seq<Send>, timers: seq<CommandTimer>, nextTimer: nat,
    flagTimers: seq<FlagTimer>, heap: Heap, intervals: map<nat, Interval>, nextInterval: nat,
    subscriptions: seq<Subscription>, adds: seq<ServerOptions>, reconnects: seq<nat>, events: seq<Emitted>)

  class RCEManager {
    var servers: map<string, Server>
    var keys: seq<string>          // the insertion order of `servers`
    var requests: map<string, Request>
    var commands: seq<CommandRequest>
    var queue: seq<QueuedCommand>
    var connectionAttempt: nat
    var socket: bool
    var hasToken: bool
    var env: Runtime

    /** The fields, read as one state. */
    function Abs(): State
      reads this
    {
      State(servers, keys, requests, commands, queue, env.settled, env.nextPromise, env.sends, env.timers, env.nextTimer,
            env.flagTimers, env.heap, env.intervals,
            env.nextInterval, env.subscriptions, env.adds, env.reconnects, connectionAttempt, socket, hasToken, env.events)
    }

    ghost predicate Valid()
      reads this
    {
      Records.Valid(Abs())
    }

    /** Every field takes its value from `st`. */
    method Store(st: State)
      modifies this
      ensures Abs() == st
    {
      servers, keys, requests, commands, queue := st.servers, st.keys, st.requests, st.commands, st.queue;
      connectionAttempt, socket, hasToken := st.connectionAttempt, st.socket, st.hasToken;
      env := Runtime(st.settled, st.nextPromise, st.sends, st.timers, st.nextTimer, st.flagTimers, st.heap,
                     st.intervals, st.nextInterval,
                     st.subscriptions, st.adds, st.reconnects, st.events);
    }

    /** The constructor: one record per option, stored in order, so a name given twice keeps the
        last record at the place of the first. */
    constructor(opts: seq<ServerOptions>)
      ensures Abs() == Construct(opts) && Valid()
    {
      servers, keys, requests, commands, queue := map[], [], map[], [], [];
      connectionAttempt, socket, hasToken := 0, false, false;
      env := Runtime(map[], 0, [], [], 0, [], Heap(map[], map[], 2, map[], 0), map[], 0, [], [], [], []);
      new;
      PutAllValid(Initial, opts);
      var i := 0;
      while i < |opts|
        invariant 0 <= i <= |opts|
        invariant PutAll(Abs(), opts[i..]) == Construct(opts)
      {
        var rec := NewRecord(opts[i]);
        assert opts[i..][1..] == opts[i + 1..];
        if rec.identifier !in servers {
          keys := keys + [rec.identifier];
        }
        servers := servers[rec.identifier := rec];
        i := i + 1;
      }
      assert opts[i..] == [];
    }

    /** `clean`: the records are reset one after the other, each stopping its own intervals; then
        requests, pending commands, the queue and the socket go. */
    method Clean()
      requires Valid()
      modifies this
      ensures Abs() == Registry.Clean(old(Abs())) && Valid()
    {
      ghost var st := Abs();
      var reset := ResetServers(servers, keys);
      var running := StopIntervals(servers, env.intervals, keys);
      servers, requests, commands, queue, socket := reset, map[], [], [], false;
      env := env.(intervals := running);
      CleanEffect(st);
    }

    /** `emit` / `logError`: one event is appended. */
    method Report(server: Option<string>, e: Event)
      modifies this
      ensures Abs() == Emit(old(Abs()), server, e)
    {
      env := env.(events := env.events + [Emitted(server, e)]);
    }

    /** `sendCommandInternal` up to its first `await`. */
    method SendInternal(id: string, command: string, response: bool, promise: nat)
      modifies this
      ensures Abs() == Sending.SendInternal(old(Abs()), id, command, response, promise)
    {
      if !hasToken {
        env := env.(events := env.events + [Emitted(None, Error(NoAccessToken))],
                    settled := Settle(env.settled, promise, Resolved(Null)));
      } else if !socket {
        env := env.(events := env.events + [Emitted(None, Error(NoWebsocket))],
                    settled := Settle(env.settled, promise, Resolved(Null)));
      } else {
        if response {
          commands := commands + [CommandRequest(id, command, None, promise, None)];
        }
        env := env.(sends := env.sends + [Send(id, command, response, promise)]);
      }
    }

    /** `sendCommand`: returns the promise handed out. */
    method SendCommand(id: string, command: string, response: bool) returns (promise: nat)
      modifies this
      ensures Sending.SendCommand(old(Abs()), id, command, response) == Sent(Abs(), promise)
    {
      promise := env.nextPromise;
      env := env.(nextPromise := promise + 1);
      if id !in servers {
        Report(None, Error(NoServerForCommand(id)));
      } else if servers[id].ready {
        SendInternal(id, command, response, promise);
      } else {
        queue := queue + [QueuedCommand(id, command, response, promise)];
      }
    }

    /** The `queuedCommands.forEach` of `processQueue`: each command is sent in turn. */
    method SendQueued(due: seq<QueuedCommand>)
      modifies this
      ensures Abs() == SendAll(old(Abs()), due)
    {
      ghost var st := Abs();
      var j := 0;
      while j < |due|
        invariant 0 <= j <= |due|
        invariant SendAll(Abs(), due[j..]) == SendAll(st, due)
      {
        assert due[j..][0] == due[j] && due[j..][1..] == due[j + 1..];
        SendInternal(due[j].identifier, due[j].command, due[j].response, due[j].promise);
        j := j + 1;
      }
      assert due[j..] == [];
    }

    /** `processQueue`: for each ready server in insertion order, its commands leave the queue
        and are sent one after the other. */
    method ProcessQueue()
      modifies this
      ensures Abs() == Sending.ProcessQueue(old(Abs()))
    {
      ghost var st := Abs();
      var ks := keys;
      var i := 0;
      while i < |ks|
        invariant 0 <= i <= |ks|
        invariant Drain(Abs(), ks[i..]) == Drain(st, ks)
      {
        var k := ks[i];
        assert ks[i..][0] == k && ks[i..][1..] == ks[i + 1..];
        if k in servers && servers[k].ready {
          var due := QueuedFor(queue, k);
          queue := QueuedElsewhere(queue, k);
          SendQueued(due);
        }
        i := i + 1;
      }
      assert ks[i..] == [];
    }

    /** `servers.set(rec.identifier, rec)`. */
    method Put(rec: Server)
      modifies this
      ensures Abs() == Records.Put(old(Abs()), rec)
    {
      if rec.identifier !in servers {
        keys := keys + [rec.identifier];
      }
      servers := servers[rec.identifier := rec];
    }

    /** `markServerAsReady`. */
    method MarkReady(rec: Server)
      modifies this
      ensures Abs() == Sending.MarkReady(old(Abs()), rec)
    {
      Put(rec.(ready := true));
      ProcessQueue();
    }

    /** `markServerAsUnready`. */
    method MarkUnready(rec: Server)
      modifies this
      ensures Abs() == Sending.MarkUnready(old(Abs()), rec)
    {
      Put(rec.(ready := false));
    }

    /** `removeServer`: the record's intervals stop, the record goes, and so does the request
        entry under its name. */
    method RemoveServer(id: string)
      modifies this
      ensures Abs() == Registry.RemoveServer(old(Abs()), id)
    {
      var handles := if id in servers then servers[id].intervals else [];
      env := env.(intervals := map h | h in env.intervals && h !in handles :: env.intervals[h]);
      servers, keys := servers - {id}, Filter(keys, (k: string) => k != id);
      if id in requests {
        requests := requests - {requests[id].identifier};
      }
    }

    /** `handleServiceState` for the stored record `srv`. */
    method HandleServiceState(srv: Server, state: string)
      modifies this
      ensures Abs() == Registry.HandleServiceState(old(Abs()), srv, state)
    {
      if srv.serviceState == state {
        return;
      }
      Put(srv.(serviceState := state));
      if state == "RUNNING" && !srv.ready {
        MarkReady(srv);
      } else if state == "STOPPED" && srv.ready {
        MarkUnready(srv);
      }
      Report(Some(srv.identifier), ServiceState(state));
      if state == "SUSPENDED" {
        RemoveServer(srv.identifier);
      }
    }

    /** `connectWebsocket`. */
    method Connect()
      modifies this
      ensures Abs() == Connection.Connect(old(Abs()))
    {
      connectionAttempt, socket := connectionAttempt + 1, true;
    }

    method ScheduleReconnect()
      modifies this
      ensures Abs() == Connection.ScheduleReconnect(old(Abs()))
    {
      if connectionAttempt < MaxAttempts {
        env := env.(reconnects := env.reconnects + [connectionAttempt * RetryDelay]);
      } else {
        Report(None, Error(TooManyAttempts));
      }
    }

    /** The socket's "error" handler. */
    method OnError()
      requires Valid()
      modifies this
      ensures Abs() == Connection.OnError(old(Abs())) && Valid()
    {
      Report(None, Error(SocketError));
      EventsValid(old(Abs()), Abs().events);
      Clean();
      ScheduleReconnect();
      ErrorPolicy(old(Abs()));
    }

    /** The socket's "close" handler. */
    method OnClose(code: int)
      requires Valid()
      modifies this
      ensures Abs() == Connection.OnClose(old(Abs()), code) && Valid()
    {
      Clean();
      if code != NormalClosure {
        ScheduleReconnect();
      } else {
        Report(None, Error(SocketClosed));
      }
      ClosePolicy(old(Abs()), code);
    }

    /** The reconnect timer `k` fires. */
    method Reconnect(k: nat)
      requires k < |env.reconnects|
      modifies this
      ensures Abs() == Connection.Reconnect(old(Abs()), k)
    {
      env := env.(reconnects := RemoveAt(env.reconnects, k));
      Connect();
    }

    /** `authenticateWebsocket`. */
    method Authenticate()
      requires Valid()
      modifies this
      ensures Abs() == Connection.Authenticate(old(Abs())) && Valid()
    {
      if !hasToken {
        Report(None, Error(NoAccessToken));
        EventsValid(old(Abs()), Abs().events);
      } else if !socket {
        Report(None, Error(NoWebsocket));
        EventsValid(old(Abs()), Abs().events);
        Clean();
        Connect();
        AttemptValid(Registry.Clean(Emit(old(Abs()), None, Error(NoWebsocket))), connectionAttempt);
      }
    }

    /** The `servers.forEach` of the "open" handler: every record not added is handed to
        `addServer`, in insertion order. */
    method ScheduleAdds()
      modifies this
      ensures Abs() == Open(old(Abs()))
    {
      var adds := CollectUnadded(servers, keys, env.adds);
      env := env.(adds := adds);
    }

    /** The socket's "open" handler. */
    method OnOpen()
      requires Valid()
      modifies this
      ensures Abs() == Connection.OnOpen(old(Abs()))
    {
      Authenticate();
      ScheduleAdds();
    }

    /** The first error of a data frame for server `name`; an unavailable server also cleans
        up and schedules a reconnect in ten seconds. */
    method PayloadErrors(name: string, error: string)
      requires Valid()
      modifies this
      ensures Abs() == Connection.PayloadErrors(old(Abs()), name, error) && Valid()
    {
      hide Registry.Clean, Unavailable, Records.Valid;
      if Unavailable(error) {
        Report(Some(name), Error(ServerUnavailable));
        EventsValid(old(Abs()), Abs().events);
        Clean();
        env := env.(reconnects := env.reconnects + [RetryDelay]);
      }
      Report(Some(name), Error(PayloadError(error)));
      PayloadErrorsEffect(old(Abs()), name, error);
    }

    /** `handleWebsocketMessage`: the lines of a console frame of at most three lines, one after
        the other, with the handler's own `server` object carried from line to line. */
    method HandleConsole(srv: Server, message: Option<string>, table: seq<EventInfo>)
      requires Framed(Ctx(Abs(), srv, None))
      modifies this
      ensures Abs() == Console(Ctx(old(Abs()), srv, None), message, table).st
    {
      hide *;
      ghost var c0 := Ctx(Abs(), srv, None);
      ConsoleParts(c0, message, table);
      var lines := FrameLines(message);
      if |lines| > 3 {
        return;
      }
      var server, obj := srv, None;
      var i := 0;
      while i < |lines|
        invariant 0 <= i <= |lines|
        invariant Framed(Ctx(Abs(), server, obj))
        invariant Lines(Ctx(Abs(), server, obj), lines[i..], table) == Lines(c0, lines, table)
      {
        LinesParts(Ctx(Abs(), server, obj), lines[i..], table);
        assert lines[i..][0] == lines[i] && lines[i..][1..] == lines[i + 1..];
        var c := Line(Ctx(Abs(), server, obj), lines[i], table);
        Store(c.st);
        server, obj := c.srv, c.obj;
        i := i + 1;
      }
      LinesParts(Ctx(Abs(), server, obj), lines[i..], table);
      assert lines[i..] == [];
    }

    /** The socket's "message" handler for a decoded frame. */
    method Receive(f: Frame, table: seq<EventInfo>)
      requires Valid()
      modifies this
      ensures Abs() == Connection.Receive(old(Abs()), f, table) && Valid()
    {
      hide Routed, Console, Registry.HandleServiceState, Connection.PayloadErrors;
      match f {
        case KeepAlive =>
        case Unparsable =>
          Report(None, Error(BadFrame));
        case ErrorReport =>
          Report(None, Error(ErrorFrame));
        case ConnectionAck =>
          connectionAttempt := 0;
        case Data(id, p) =>
          if id !in requests {
            Report(None, Error(NoRequestForId(id)));
          } else if requests[id].identifier !in servers {
            Report(None, Error(NoServerForId(requests[id].identifier)));
          } else {
            var srv := servers[requests[id].identifier];
            ReceiveParts(Abs(), f, table);
            RoutedParts(Abs(), srv, p, table);
            if p.errors != [] {
              PayloadErrors(srv.identifier, p.errors[0]);
            } else if p.console.Some? {
              HandleConsole(srv, p.console.value, table);
            } else if p.serviceState.Some? {
              HandleServiceState(srv, p.serviceState.value);
            }
          }
      }
      ReceiveValid(old(Abs()), f, table);
    }
  }
}
