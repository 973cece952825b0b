/**
 * The websocket of `RCEManager` (src/classes/RCEManager.ts, `connectWebsocket` and
 * `authenticateWebsocket`): the connection-attempt counter, the reconnect policy and
 * the dispatch of incoming frames. The socket's events ("open", "error", "close",
 * "message") and the reconnect timers are operations of their own; frames arrive
 * already decoded.
 */
module Connection {
  import opened Text
  import opened Lists
  import opened Events
  import opened Pending
  import opened Patterns
  import opened Records
  import opened Registry
  import opened Handler

  /** Reconnects are scheduled only while fewer attempts than this were made. */
  const MaxAttempts := 5
  /** Milliseconds per attempt made, and the delay of the reconnect after an unavailable server. */
  const RetryDelay := 10000
  /** The close code of a normal closure. */
  const NormalClosure := 1000

  /** `connectWebsocket`: one more attempt, and a socket. */
  function Connect(st: State): State
  {
    st.(connectionAttempt := st.connectionAttempt + 1, socket := true)
  }

  /** A reconnect after `connectionAttempt` times ten seconds while fewer than five attempts were
      made; otherwise the manager gives up and says so. */
  function ScheduleReconnect(st: State): State
  {
    if st.connectionAttempt < MaxAttempts then st.(reconnects := st.reconnects + [st.connectionAttempt * RetryDelay])
    else Emit(st, None, Error(TooManyAttempts))
  }

  /** The socket's "error" event. */
  function OnError(st: State): State
  {
    ScheduleReconnect(Clean(Emit(st, None, Error(SocketError))))
  }

  /** The socket's "close" event with close code `code`. */
  function OnClose(st: State, code: int): State
  {
    var st1 := Clean(st);
    if code != NormalClosure then ScheduleReconnect(st1) else Emit(st1, None, Error(SocketClosed))
  }

  /** The scheduled reconnect `k` is due. */
  function Reconnect(st: State, k: nat): State
    requires k < |st.reconnects|
  {
    Connect(st.(reconnects := RemoveAt(st.reconnects, k)))
  }

  /** `authenticateWebsocket`: without a token it only reports; without a socket it reports,
      cleans up and connects again; otherwise the init frame goes out and nothing changes here. */
  function Authenticate(st: State): State
  {
    if !st.hasToken then Emit(st, None, Error(NoAccessToken))
    else if st.socket then st
    else Connect(Clean(Emit(st, None, Error(NoWebsocket))))
  }

  /** The socket's "open" event: the socket is authenticated, then every server not added yet is
      added again. */
  function OnOpen(st: State): State
  {
    Open(Authenticate(st))
  }

  /** The payload of a data frame: the messages of its errors, its `consoleMessages` object with
      the object's `message`, and the `state` of its `serviceState` object. */
  datatype Payload = Payload(errors: seq<string>, console: Option<Option<string>>, serviceState: Option<string>)

  /** A decoded frame, by its type ("ka", "error", "connection_ack", "data"); `Unparsable` stands
      for text that is not JSON. */
  datatype Frame =
    | KeepAlive
    | ErrorReport
    | ConnectionAck
    | Data(id: string, payload: Payload)
    | Unparsable

  /** The socket's "message" event. A data frame is routed by its id to the server that asked for
      it; one whose id or server is unknown is reported. */
  function Receive(st: State, f: Frame, table: seq<EventInfo>): State
    requires Valid(st)
  {
    match f
    case KeepAlive => st
    case Unparsable => Emit(st, None, Error(BadFrame))
    case ErrorReport => Emit(st, None, Error(ErrorFrame))
    case ConnectionAck => st.(connectionAttempt := 0)
    case Data(id, p) =>
      if id !in st.requests then Emit(st, None, Error(NoRequestForId(id)))
      else
        var name := st.requests[id].identifier;
        if name !in st.servers then Emit(st, None, Error(NoServerForId(name)))
        else Routed(st, st.servers[name], p, table)
  }

  /** A data frame for the stored record `srv`: its first error is reported for the server; a
      console frame goes to the console handler with the record, a service-state frame to
      `handleServiceState`. */
  function Routed(st: State, srv: Server, p: Payload, table: seq<EventInfo>): State
    requires srv.identifier in st.servers && st.servers[srv.identifier] == srv
  {
    hide *;
    if p.errors != [] then PayloadErrors(st, srv.identifier, p.errors[0])
    else if p.console.Some? then Console(Ctx(st, srv, None), p.console.value, table).st
    else if p.serviceState.Some? then HandleServiceState(st, srv, p.serviceState.value)
    else st
  }

  /** The first error of a frame for server `name`. An AioRpc "unavailable" error is reported
      first, then everything is cleaned up and a reconnect is scheduled in ten seconds. */
  function PayloadErrors(st: State, name: string, error: string): State
  {
    var st1 := if Unavailable(error)
      then var c := Clean(Emit(st, Some(name), Error(ServerUnavailable)));
        c.(reconnects := c.reconnects + [RetryDelay])
      else st;
    Emit(st1, Some(name), Error(PayloadError(error)))
  }

  // ----- the attempt counter -----

  /** Each connect counts one attempt, and only the acknowledgement of a connection resets the
      count; neither touches anything else. */
  lemma AttemptCounter(st: State, table: seq<EventInfo>)
    requires Valid(st)
    ensures var c := Connect(st);
      c.connectionAttempt == st.connectionAttempt + 1 && c.socket && c.(connectionAttempt := st.connectionAttempt, socket := st.socket) == st
    ensures Receive(st, ConnectionAck, table) == st.(connectionAttempt := 0)
    ensures forall k :: 0 <= k < |st.reconnects| ==>
      Reconnect(st, k).connectionAttempt == st.connectionAttempt + 1 && |Reconnect(st, k).reconnects| == |st.reconnects| - 1
  {
    hide Routed, Valid;
  }

  /** After an error the manager is cleaned up; it schedules a reconnect exactly when fewer than
      five attempts were made, after `connectionAttempt` times ten seconds, and otherwise reports
      that it gives up. */
  lemma ErrorPolicy(st: State)
    requires Valid(st)
    ensures var r, a := OnError(st), st.connectionAttempt;
      && Valid(r) && !r.socket && r.commands == [] && r.queue == [] && r.requests == map[] && r.keys == st.keys
      && r.connectionAttempt == a
      && (a < MaxAttempts ==>
            r.reconnects == st.reconnects + [a * RetryDelay] && r.events == st.events + [Emitted(None, Error(SocketError))])
      && (a >= MaxAttempts ==>
            && r.reconnects == st.reconnects
            && r.events == st.events + [Emitted(None, Error(SocketError)), Emitted(None, Error(TooManyAttempts))])
  {
    var st0 := Emit(st, None, Error(SocketError));
    assert SameRegistry(st0, st);
    SameRegistryValid(st0, st);
    CleanEffect(st0);
  }

  /** A close with code 1000 never reconnects; any other close follows the policy of an error. */
  lemma ClosePolicy(st: State, code: int)
    requires Valid(st)
    ensures var r, a := OnClose(st, code), st.connectionAttempt;
      && Valid(r) && !r.socket && r.commands == [] && r.queue == [] && r.requests == map[] && r.keys == st.keys
      && r.connectionAttempt == a
      && (code == NormalClosure ==>
            r.reconnects == st.reconnects && r.events == st.events + [Emitted(None, Error(SocketClosed))])
      && (code != NormalClosure && a < MaxAttempts ==>
            r.reconnects == st.reconnects + [a * RetryDelay] && r.events == st.events)
      && (code != NormalClosure && a >= MaxAttempts ==>
            r.reconnects == st.reconnects && r.events == st.events + [Emitted(None, Error(TooManyAttempts))])
  {
    CleanEffect(st);
  }

  /** One more failed connection: the socket errors, and the reconnect it scheduled, if any, is due. */
  function Retry(st: State): State
  {
    var e := OnError(st);
    if |e.reconnects| > |st.reconnects| then Reconnect(e, |e.reconnects| - 1) else e
  }

  function Retries(st: State, n: nat): State
    decreases n
  {
    if n == 0 then st else Retries(Retry(st), n - 1)
  }

  lemma RetriesParts(st: State, n: nat)
    ensures n == 0 ==> Retries(st, n) == st
    ensures n > 0 ==> Retries(st, n) == Retries(Retry(st), n - 1)
  {
  }

  lemma RetryStep(st: State)
    requires Valid(st)
    ensures var r := Retry(st);
      && Valid(r) && r.reconnects == st.reconnects
      && r.connectionAttempt == if st.connectionAttempt < MaxAttempts then st.connectionAttempt + 1 else st.connectionAttempt
  {
    ErrorPolicy(st);
    var e := OnError(st);
    if |e.reconnects| > |st.reconnects| {
      assert RemoveAt(e.reconnects, |e.reconnects| - 1) == st.reconnects;
    }
  }

  /** However often the connection fails, no more than five attempts are made: after `n` failures
      the count is the smaller of the start plus `n` and five, and no reconnect is left pending. */
  lemma {:induction false} RetriesCapped(st: State, n: nat)
    requires Valid(st) && st.connectionAttempt <= MaxAttempts
    ensures var r := Retries(st, n);
      && r.connectionAttempt == (if st.connectionAttempt + n < MaxAttempts then st.connectionAttempt + n else MaxAttempts)
      && r.reconnects == st.reconnects
    decreases n
  {
    hide *;
    RetriesParts(st, n);
    if n > 0 {
      RetryStep(st);
      RetriesCapped(Retry(st), n - 1);
    }
  }

  /** On "open" every server that is not added is scheduled to be added again. Without a token
      that is all (and reported); without a socket everything is cleaned up first, so every server
      is scheduled, and one more attempt is made. */
  lemma OpenEffect(st: State)
    requires Valid(st)
    ensures var r := OnOpen(st);
      && (!st.hasToken ==>
            && r.events == st.events + [Emitted(None, Error(NoAccessToken))]
            && r.socket == st.socket && r.connectionAttempt == st.connectionAttempt)
      && (st.hasToken && st.socket ==> r.events == st.events && r.connectionAttempt == st.connectionAttempt)
      && (!st.hasToken || st.socket ==>
            forall k :: k in st.servers && !st.servers[k].added ==> OptionsOf(st.servers[k]) in r.adds)
      && (st.hasToken && !st.socket ==>
            && r.events == st.events + [Emitted(None, Error(NoWebsocket))]
            && r.socket && r.connectionAttempt == st.connectionAttempt + 1
            && forall k :: k in st.servers ==> OptionsOf(st.servers[k]) in r.adds)
      && (forall o :: o in st.adds ==> o in r.adds)
  {
    if st.hasToken && !st.socket {
      var st0 := Emit(st, None, Error(NoWebsocket));
      assert SameRegistry(st0, st);
      SameRegistryValid(st0, st);
      CleanEffect(st0);
      var c := Connect(Clean(st0));
      forall k | k in st.servers ensures OptionsOf(st.servers[k]) in OnOpen(st).adds {
        assert k in c.servers && !c.servers[k].added;
        assert OptionsOf(c.servers[k]) == OptionsOf(st.servers[k]);
      }
    }
  }

  // ----- frames -----

  lemma EventsValid(st: State, evs: seq<Emitted>)
    requires Valid(st)
    ensures Valid(st.(events := evs))
  {
  }

  lemma AttemptValid(st: State, n: nat)
    requires Valid(st)
    ensures Valid(st.(connectionAttempt := n))
  {
  }

  lemma ReceiveParts(st: State, f: Frame, table: seq<EventInfo>)
    requires Valid(st)
    ensures f.Data? && f.id in st.requests && st.requests[f.id].identifier in st.servers ==>
      var name := st.requests[f.id].identifier;
      name == st.servers[name].identifier && Receive(st, f, table) == Routed(st, st.servers[name], f.payload, table)
  {
    hide Routed;
  }

  /** Keep-alives change nothing; error frames and frames that are not JSON are only reported. */
  lemma ReceiveControl(st: State, table: seq<EventInfo>)
    requires Valid(st)
    ensures Receive(st, KeepAlive, table) == st
    ensures Receive(st, ErrorReport, table) == st.(events := st.events + [Emitted(None, Error(ErrorFrame))])
    ensures Receive(st, Unparsable, table) == st.(events := st.events + [Emitted(None, Error(BadFrame))])
  {
    hide Routed, Valid;
  }

  /** A data frame whose id no request knows, or whose server is gone, is only reported. */
  lemma ReceiveUnrouted(st: State, id: string, p: Payload, table: seq<EventInfo>)
    requires Valid(st)
    ensures id !in st.requests ==>
      Receive(st, Data(id, p), table) == st.(events := st.events + [Emitted(None, Error(NoRequestForId(id)))])
    ensures id in st.requests && st.requests[id].identifier !in st.servers ==>
      var name := st.requests[id].identifier;
      Receive(st, Data(id, p), table) == st.(events := st.events + [Emitted(None, Error(NoServerForId(name)))])
  {
    hide Routed, Valid;
  }

  /** A data frame with errors reports its first error for the server. Only an AioRpc
      "unavailable" error changes more: it is reported first, everything is cleaned up and a
      reconnect is scheduled in ten seconds. */
  lemma PayloadErrorsEffect(st: State, name: string, error: string)
    requires Valid(st)
    ensures var r, reported := PayloadErrors(st, name, error), Emitted(Some(name), Error(PayloadError(error)));
      && Valid(r)
      && (!Unavailable(error) ==> r == st.(events := st.events + [reported]))
      && (Unavailable(error) ==>
            && r.events == st.events + [Emitted(Some(name), Error(ServerUnavailable)), reported]
            && r.reconnects == st.reconnects + [RetryDelay]
            && !r.socket && r.commands == [] && r.queue == [] && r.requests == map[] && r.keys == st.keys
            && forall k :: k in r.servers ==> !r.servers[k].added && !r.servers[k].ready)
  {
    hide Unavailable;
    if Unavailable(error) {
      UnavailableEffect(st, name, error);
    }
  }

  lemma UnavailableEffect(st: State, name: string, error: string)
    requires Valid(st) && Unavailable(error)
    ensures var r := PayloadErrors(st, name, error);
      && Valid(r)
      && r.events == st.events + [Emitted(Some(name), Error(ServerUnavailable)), Emitted(Some(name), Error(PayloadError(error)))]
      && r.reconnects == st.reconnects + [RetryDelay]
      && !r.socket && r.commands == [] && r.queue == [] && r.requests == map[] && r.keys == st.keys
      && forall k :: k in r.servers ==> !r.servers[k].added && !r.servers[k].ready
  {
    hide Valid, Unavailable, Regex.Matches, Regex.FirstStart, AioRpcPattern, OccursAt, AllIn, Trim;
    var st0 := Emit(st, Some(name), Error(ServerUnavailable));
    var c := Clean(st0);
    assert c == st0.(servers := c.servers, intervals := c.intervals, requests := map[], commands := [], queue := [],
                     socket := false);
    hide Clean;
    SameRegistryValid(st0, st);
    CleanEffect(st0);
    var r := PayloadErrors(st, name, error);
    assert r == Emit(c.(reconnects := c.reconnects + [RetryDelay]), Some(name), Error(PayloadError(error)));
    SameRegistryValid(r, c);
  }

  lemma RoutedParts(st: State, srv: Server, p: Payload, table: seq<EventInfo>)
    requires srv.identifier in st.servers && st.servers[srv.identifier] == srv
    ensures Routed(st, srv, p, table) ==
      if p.errors != [] then PayloadErrors(st, srv.identifier, p.errors[0])
      else if p.console.Some? then Console(Ctx(st, srv, None), p.console.value, table).st
      else if p.serviceState.Some? then HandleServiceState(st, srv, p.serviceState.value)
      else st
  {
  }

  /** A console frame is the console handler's work on the stored record: no other server
      changes, events are only appended, each debris flag is armed at most once, and a frame of
      more than three lines changes nothing. */
  lemma RoutedConsole(st: State, srv: Server, p: Payload, table: seq<EventInfo>)
    requires Valid(st) && srv.identifier in st.servers && st.servers[srv.identifier] == srv
    requires p.errors == [] && p.console.Some?
    ensures var r, c := Routed(st, srv, p, table), Ctx(st, srv, None);
      && Valid(r) && Untouched(st, r, srv.identifier) && ArmedOnce(c, Console(c, p.console.value, table))
      && (|FrameLines(p.console.value)| > 3 ==> r == st)
  {
    hide Routed, Console, Valid, Untouched, ArmedOnce;
    RoutedParts(st, srv, p, table);
    ConsoleEffect(Ctx(st, srv, None), p.console.value, table);
  }

  /** A service-state frame without console text is `handleServiceState` on the stored record:
      the same state changes nothing, a new one is announced exactly once, and "SUSPENDED"
      removes the server. */
  lemma RoutedServiceState(st: State, srv: Server, p: Payload, table: seq<EventInfo>)
    requires Valid(st) && srv.identifier in st.servers && st.servers[srv.identifier] == srv
    requires p.errors == [] && p.console.None? && p.serviceState.Some?
    ensures var r, state := Routed(st, srv, p, table), p.serviceState.value;
      && Valid(r)
      && (srv.serviceState == state ==> r == st)
      && (srv.serviceState != state ==> CountServiceStates(r.events) == CountServiceStates(st.events) + 1)
      && (srv.serviceState != state && state == "SUSPENDED" ==> srv.identifier !in r.servers)
  {
    hide Routed, HandleServiceState, Valid, CountServiceStates;
    RoutedParts(st, srv, p, table);
    ServiceStateEffect(st, srv, p.serviceState.value);
  }

  /** A routed data frame with nothing in it changes nothing, and every routed frame keeps the
      registry consistent. */
  lemma RoutedValid(st: State, srv: Server, p: Payload, table: seq<EventInfo>)
    requires Valid(st) && srv.identifier in st.servers && st.servers[srv.identifier] == srv
    ensures Valid(Routed(st, srv, p, table))
    ensures p.errors == [] && p.console.None? && p.serviceState.None? ==> Routed(st, srv, p, table) == st
    ensures p.errors != [] ==> Routed(st, srv, p, table) == PayloadErrors(st, srv.identifier, p.errors[0])
  {
    hide *;
    RoutedParts(st, srv, p, table);
    if p.errors != [] {
      PayloadErrorsEffect(st, srv.identifier, p.errors[0]);
    } else if p.console.Some? {
      RoutedConsole(st, srv, p, table);
    } else if p.serviceState.Some? {
      RoutedServiceState(st, srv, p, table);
    }
  }

  /** Every frame keeps the registry consistent. */
  lemma ReceiveValid(st: State, f: Frame, table: seq<EventInfo>)
    requires Valid(st)
    ensures Valid(Receive(st, f, table))
  {
    hide *;
    ReceiveParts(st, f, table);
    ReceiveControl(st, table);
    AttemptCounter(st, table);
    match f
    case Data(id, p) =>
      ReceiveUnrouted(st, id, p, table);
      if id in st.requests && st.requests[id].identifier in st.servers {
        RoutedValid(st, st.servers[st.requests[id].identifier], p, table);
      } else if id in st.requests {
        EventsValid(st, st.events + [Emitted(None, Error(NoServerForId(st.requests[id].identifier)))]);
      } else {
        EventsValid(st, st.events + [Emitted(None, Error(NoRequestForId(id)))]);
      }
    case ConnectionAck => AttemptValid(st, 0);
    case ErrorReport => EventsValid(st, st.events + [Emitted(None, Error(ErrorFrame))]);
    case Unparsable => EventsValid(st, st.events + [Emitted(None, Error(BadFrame))]);
    case KeepAlive =>
  }
}
