/**
 * Sending commands (src/classes/RCEManager.ts): `sendCommand`, the pending-list
 * part of `sendCommandInternal`, `processQueue`, `markServerAsReady` and
 * `markServerAsUnready`, and the asynchronous completions the source leaves to
 * promises and timers: the answer of the HTTP send, the three-second timer and
 * the polling intervals.
 */
module Sending {
  import opened Text
  import opened Lists
  import opened Events
  import opened Pending
  import opened Records

  /** `sendCommandInternal` up to its first `await`: without a token or a socket the promise
      settles with `null`; otherwise a request that waits for an answer joins `commands`, and
      the HTTP send is in flight. */
  function SendInternal(st: State, id: string, command: string, response: bool, promise: nat): State
  {
    if !st.hasToken then SettleIn(Emit(st, None, Error(NoAccessToken)), promise, Resolved(Null))
    else if !st.socket then SettleIn(Emit(st, None, Error(NoWebsocket)), promise, Resolved(Null))
    else
      var cmds := if response then st.commands + [CommandRequest(id, command, None, promise, None)] else st.commands;
      st.(commands := cmds, sends := st.sends + [Send(id, command, response, promise)])
  }

  /** The new state and the promise `sendCommand` returned. */
  datatype Sent = Sent(st: State, promise: nat)

  /** `sendCommand`: an unknown server is reported and its promise never settles; a ready
      server gets the command at once; any other server gets it queued. */
  function SendCommand(st: State, id: string, command: string, response: bool): Sent
  {
    var p := st.nextPromise;
    var st0 := st.(nextPromise := p + 1);
    if id !in st.servers then Sent(Emit(st0, None, Error(NoServerForCommand(id))), p)
    else if st.servers[id].ready then Sent(SendInternal(st0, id, command, response, p), p)
    else Sent(st0.(queue := st.queue + [QueuedCommand(id, command, response, p)]), p)
  }

  /** Queueing: an unready server's command goes to the end of the queue, a ready server's
      command leaves the queue alone, and an unknown server's promise is never settled. */
  lemma SendCommandQueueing(st: State, id: string, command: string, response: bool)
    ensures var r := SendCommand(st, id, command, response);
      && r.promise == st.nextPromise && r.st.nextPromise == st.nextPromise + 1
      && (id in st.servers && !st.servers[id].ready ==>
            r.st.queue == st.queue + [QueuedCommand(id, command, response, r.promise)]
            && r.st.settled == st.settled && r.st.commands == st.commands && r.st.sends == st.sends)
      && (id in st.servers && st.servers[id].ready ==> r.st.queue == st.queue)
      && (id !in st.servers ==>
            r.st.queue == st.queue && r.st.settled == st.settled && r.st.commands == st.commands
            && r.st.sends == st.sends && r.st.events == st.events + [Emitted(None, Error(NoServerForCommand(id)))])
  {
    hide SendInternal;
    SendInternalKeeps(st.(nextPromise := st.nextPromise + 1), id, command, response, st.nextPromise);
  }

  /** `sendCommand` leaves the registry as it is. */
  lemma SendCommandKeeps(st: State, id: string, command: string, response: bool)
    ensures SameRegistry(SendCommand(st, id, command, response).st, st)
  {
    hide SendInternal;
    var st0 := st.(nextPromise := st.nextPromise + 1);
    SendInternalKeeps(st0, id, command, response, st.nextPromise);
  }

  lemma SendInternalKeeps(st: State, id: string, command: string, response: bool, promise: nat)
    ensures SameRegistry(SendInternal(st, id, command, response, promise), st)
    ensures var r := SendInternal(st, id, command, response, promise);
      r.queue == st.queue && r.nextPromise == st.nextPromise
  {
  }

  /** The queued commands dispatched one after the other, in the given order. */
  function SendAll(st: State, es: seq<QueuedCommand>): State
    decreases es
  {
    if es == [] then st
    else SendAll(SendInternal(st, es[0].identifier, es[0].command, es[0].response, es[0].promise), es[1..])
  }

  /** The `servers.forEach` of `processQueue`, over the servers `ks` in insertion order. */
  function Drain(st: State, ks: seq<string>): State
    decreases ks
  {
    if ks == [] then st
    else if ks[0] in st.servers && st.servers[ks[0]].ready then
      Drain(SendAll(st.(queue := QueuedElsewhere(st.queue, ks[0])), QueuedFor(st.queue, ks[0])), ks[1..])
    else Drain(st, ks[1..])
  }

  function ProcessQueue(st: State): State
  {
    Drain(st, st.keys)
  }

  /** `markServerAsReady(rec)`: writes back `rec` itself, made ready, then drains the queue. */
  function MarkReady(st: State, rec: Server): State
  {
    ProcessQueue(Put(st, rec.(ready := true)))
  }

  /** `markServerAsUnready(rec)`: writes back `rec` itself, made unready. */
  function MarkUnready(st: State, rec: Server): State
  {
    Put(st, rec.(ready := false))
  }

  /** Sending never touches the registry or the queue, and it only adds `Error` events. */
  predicate ErrorsAdded(before: seq<Emitted>, after: seq<Emitted>)
  {
    |before| <= |after| && after[..|before|] == before
    && forall k :: |before| <= k < |after| ==> after[k].event.Error?
  }

  lemma ErrorsAddedTrans(a: seq<Emitted>, b: seq<Emitted>, c: seq<Emitted>)
    requires ErrorsAdded(a, b) && ErrorsAdded(b, c)
    ensures ErrorsAdded(a, c)
  {
    assert c[..|b|][..|a|] == c[..|a|];
  }

  lemma {:induction false} SendAllRegistry(st: State, es: seq<QueuedCommand>)
    ensures SameRegistry(SendAll(st, es), st) && SendAll(st, es).queue == st.queue
    decreases es
  {
    if es != [] {
      SendAllRegistry(SendInternal(st, es[0].identifier, es[0].command, es[0].response, es[0].promise), es[1..]);
    }
  }

  lemma {:induction false} SendAllKeeps(st: State, es: seq<QueuedCommand>)
    ensures SameRegistry(SendAll(st, es), st) && SendAll(st, es).queue == st.queue
    ensures ErrorsAdded(st.events, SendAll(st, es).events)
    decreases es
  {
    if es != [] {
      var st1 := SendInternal(st, es[0].identifier, es[0].command, es[0].response, es[0].promise);
      SendAllKeeps(st1, es[1..]);
      ErrorsAddedTrans(st.events, st1.events, SendAll(st1, es[1..]).events);
    }
  }

  lemma {:induction false} DrainKeeps(st: State, ks: seq<string>)
    ensures SameRegistry(Drain(st, ks), st)
    ensures ErrorsAdded(st.events, Drain(st, ks).events)
    decreases ks
  {
    if ks != [] {
      if ks[0] in st.servers && st.servers[ks[0]].ready {
        var st0 := st.(queue := QueuedElsewhere(st.queue, ks[0]));
        var st1 := SendAll(st0, QueuedFor(st.queue, ks[0]));
        SendAllKeeps(st0, QueuedFor(st.queue, ks[0]));
        DrainKeeps(st1, ks[1..]);
        ErrorsAddedTrans(st.events, st1.events, Drain(st1, ks[1..]).events);
      } else {
        DrainKeeps(st, ks[1..]);
      }
    }
  }

  lemma {:induction false} SendAllAppend(st: State, a: seq<QueuedCommand>, b: seq<QueuedCommand>)
    ensures SendAll(st, a + b) == SendAll(SendAll(st, a), b)
    decreases a
  {
    if a == [] {
      assert a + b == b;
    } else {
      assert (a + b)[0] == a[0] && (a + b)[1..] == a[1..] + b;
      SendAllAppend(SendInternal(st, a[0].identifier, a[0].command, a[0].response, a[0].promise), a[1..], b);
    }
  }

  /** What the queue holds does not change how the commands are sent. */
  lemma {:induction false} SendAllQueue(st: State, q: seq<QueuedCommand>, es: seq<QueuedCommand>)
    ensures SendAll(st.(queue := q), es) == SendAll(st, es).(queue := q)
    decreases es
  {
    if es != [] {
      var st1 := SendInternal(st, es[0].identifier, es[0].command, es[0].response, es[0].promise);
      assert SendInternal(st.(queue := q), es[0].identifier, es[0].command, es[0].response, es[0].promise)
          == st1.(queue := q);
      SendAllQueue(st1, q, es[1..]);
    }
  }

  predicate ReadyIn(servers: map<string, Server>, id: string)
  {
    id in servers && servers[id].ready
  }

  /** The commands `processQueue` dispatches: the queued commands of each ready server among
      `ks`, server after server, each server's commands in queue order. */
  function Dispatched(q: seq<QueuedCommand>, servers: map<string, Server>, ks: seq<string>): seq<QueuedCommand>
    decreases ks
  {
    if ks == [] then []
    else (if ReadyIn(servers, ks[0]) then QueuedFor(q, ks[0]) else []) + Dispatched(q, servers, ks[1..])
  }

  /** The queue `processQueue` leaves: the commands of servers that are not ready, in queue order. */
  function Waiting(q: seq<QueuedCommand>, servers: map<string, Server>, ks: seq<string>): seq<QueuedCommand>
  {
    Filter(q, (e: QueuedCommand) => !(e.identifier in ks && ReadyIn(servers, e.identifier)))
  }

  lemma {:induction false} DispatchedElsewhere(q: seq<QueuedCommand>, servers: map<string, Server>, k: string,
                                              ks: seq<string>)
    requires k !in ks
    ensures Dispatched(QueuedElsewhere(q, k), servers, ks) == Dispatched(q, servers, ks)
    decreases ks
  {
    if ks != [] {
      DispatchedElsewhere(q, servers, k, ks[1..]);
      FilterFilter(q, (e: QueuedCommand) => e.identifier != k, (e: QueuedCommand) => e.identifier == ks[0],
                   (e: QueuedCommand) => e.identifier == ks[0]);
    }
  }

  lemma WaitingReady(q: seq<QueuedCommand>, servers: map<string, Server>, ks: seq<string>)
    requires ks != [] && ReadyIn(servers, ks[0])
    ensures Waiting(QueuedElsewhere(q, ks[0]), servers, ks[1..]) == Waiting(q, servers, ks)
  {
    var k, rest := ks[0], ks[1..];
    FilterFilter(q, (e: QueuedCommand) => e.identifier != k,
                 (e: QueuedCommand) => !(e.identifier in rest && ReadyIn(servers, e.identifier)),
                 (e: QueuedCommand) => e.identifier != k && !(e.identifier in rest && ReadyIn(servers, e.identifier)));
    FilterAgree(q, (e: QueuedCommand) => e.identifier != k && !(e.identifier in rest && ReadyIn(servers, e.identifier)),
                (e: QueuedCommand) => !(e.identifier in ks && ReadyIn(servers, e.identifier)));
  }

  lemma WaitingNotReady(q: seq<QueuedCommand>, servers: map<string, Server>, ks: seq<string>)
    requires ks != [] && !ReadyIn(servers, ks[0])
    ensures Waiting(q, servers, ks[1..]) == Waiting(q, servers, ks)
  {
    FilterAgree(q, (e: QueuedCommand) => !(e.identifier in ks[1..] && ReadyIn(servers, e.identifier)),
                (e: QueuedCommand) => !(e.identifier in ks && ReadyIn(servers, e.identifier)));
  }

  lemma QueueTwice(st: State, a: seq<QueuedCommand>, b: seq<QueuedCommand>)
    ensures st.(queue := a).(queue := b) == st.(queue := b)
  {
  }

  lemma DrainUnfold(st: State, ks: seq<string>)
    requires ks != [] && ReadyIn(st.servers, ks[0])
    ensures Drain(st, ks) == Drain(SendAll(st.(queue := QueuedElsewhere(st.queue, ks[0])), QueuedFor(st.queue, ks[0])), ks[1..])
    ensures Dispatched(st.queue, st.servers, ks) == QueuedFor(st.queue, ks[0]) + Dispatched(st.queue, st.servers, ks[1..])
  {
  }

  /** One ready server: its commands leave the queue and go out before those of the rest. */
  lemma {:induction false} DrainReadyStep(st: State, ks: seq<string>)
    requires NoDup(ks) && ks != [] && ReadyIn(st.servers, ks[0])
    ensures Drain(st, ks)
         == SendAll(st.(queue := Waiting(st.queue, st.servers, ks)), Dispatched(st.queue, st.servers, ks))
    decreases ks, 0
  {
    hide Waiting, QueuedFor, QueuedElsewhere, Filter, SendAll, Drain, Dispatched;
    var q, k, rest := st.queue, ks[0], ks[1..];
    var st0 := st.(queue := QueuedElsewhere(q, k));
    var qf := QueuedFor(q, k);
    var st1 := SendAll(st0, qf);
    var x := Waiting(q, st.servers, ks);
    var d := Dispatched(q, st.servers, rest);
    assert Drain(st1, rest) == SendAll(st1.(queue := x), d) by {
      NoDupTail(ks);
      DrainEffect(st1, rest);
      SendAllRegistry(st0, qf);
      WaitingReady(q, st.servers, ks);
      DispatchedElsewhere(q, st.servers, k, rest);
    }
    assert st1.(queue := x) == SendAll(st.(queue := x), qf) by {
      SendAllQueue(st0, x, qf);
      QueueTwice(st, QueuedElsewhere(q, k), x);
    }
    assert SendAll(SendAll(st.(queue := x), qf), d) == SendAll(st.(queue := x), qf + d) by {
      SendAllAppend(st.(queue := x), qf, d);
    }
    DrainUnfold(st, ks);
  }

  /** `processQueue` takes out of the queue exactly the commands of the ready servers and sends
      them, server by server in insertion order and in queue order within a server; the
      commands of servers that are not ready stay, in their order. */
  lemma {:induction false} DrainEffect(st: State, ks: seq<string>)
    requires NoDup(ks)
    ensures Drain(st, ks)
         == SendAll(st.(queue := Waiting(st.queue, st.servers, ks)), Dispatched(st.queue, st.servers, ks))
    decreases ks, 1
  {
    if ks == [] {
      FilterKeepsAll(st.queue, (e: QueuedCommand) => !(e.identifier in ks && ReadyIn(st.servers, e.identifier)));
      assert st.(queue := st.queue) == st;
    } else {
      NoDupTail(ks);
      if ReadyIn(st.servers, ks[0]) {
        DrainReadyStep(st, ks);
      } else {
        assert Drain(st, ks) == Drain(st, ks[1..]);
        DrainEffect(st, ks[1..]);
        WaitingNotReady(st.queue, st.servers, ks);
        assert Dispatched(st.queue, st.servers, ks) == [] + Dispatched(st.queue, st.servers, ks[1..]);
        assert Dispatched(st.queue, st.servers, ks) == Dispatched(st.queue, st.servers, ks[1..]);
        assert Waiting(st.queue, st.servers, ks[1..]) == Waiting(st.queue, st.servers, ks);
      }
    }
  }

  /** The queued commands of the ready servers among `ks`. */
  predicate Due(servers: map<string, Server>, ks: seq<string>, e: QueuedCommand)
  {
    e.identifier in ks && ReadyIn(servers, e.identifier)
  }

  /** Each due command is dispatched exactly once. */
  lemma {:induction false} DispatchedCount(q: seq<QueuedCommand>, servers: map<string, Server>, ks: seq<string>)
    requires NoDup(ks)
    ensures multiset(Dispatched(q, servers, ks)) == multiset(Filter(q, (e: QueuedCommand) => Due(servers, ks, e)))
    decreases ks
  {
    if ks == [] {
      FilterKeepsNone(q, (e: QueuedCommand) => Due(servers, ks, e));
    } else {
      NoDupTail(ks);
      DispatchedCount(q, servers, ks[1..]);
      if ReadyIn(servers, ks[0]) {
        FilterUnion(q, (e: QueuedCommand) => Due(servers, ks, e), (e: QueuedCommand) => e.identifier == ks[0],
                    (e: QueuedCommand) => Due(servers, ks[1..], e));
      } else {
        FilterAgree(q, (e: QueuedCommand) => Due(servers, ks, e), (e: QueuedCommand) => Due(servers, ks[1..], e));
      }
    }
  }

  /** `processQueue` on a consistent registry: the queue keeps exactly the commands of servers
      that are not ready, in order; every other command is sent exactly once, in the order
      `DrainEffect` gives; the registry is untouched and only error events are added. */
  lemma ProcessQueueEffect(st: State)
    requires Valid(st)
    ensures var r := ProcessQueue(st);
      && r == SendAll(st.(queue := Waiting(st.queue, st.servers, st.keys)), Dispatched(st.queue, st.servers, st.keys))
      && r.queue == Waiting(st.queue, st.servers, st.keys)
      && (forall e :: e in r.queue <==> e in st.queue && !ReadyIn(st.servers, e.identifier))
      && multiset(r.queue) + multiset(Dispatched(st.queue, st.servers, st.keys)) == multiset(st.queue)
      && SameRegistry(r, st) && ErrorsAdded(st.events, r.events)
  {
    DrainEffect(st, st.keys);
    DrainKeeps(st, st.keys);
    SendAllRegistry(st.(queue := Waiting(st.queue, st.servers, st.keys)), Dispatched(st.queue, st.servers, st.keys));
    DispatchedCount(st.queue, st.servers, st.keys);
    FilterPartition(st.queue, (e: QueuedCommand) => !(e.identifier in st.keys && ReadyIn(st.servers, e.identifier)),
                    (e: QueuedCommand) => Due(st.servers, st.keys, e));
  }

  /** `markServerAsReady`: the record is stored ready, and none of its commands stays queued. */
  lemma MarkReadyDrains(st: State, rec: Server)
    requires Valid(st)
    ensures var r := MarkReady(st, rec);
      && Valid(r)
      && r.servers == st.servers[rec.identifier := rec.(ready := true)]
      && (forall e :: e in r.queue <==> e in st.queue && !ReadyIn(r.servers, e.identifier))
      && (forall e :: e in r.queue ==> e.identifier != rec.identifier)
      && ErrorsAdded(st.events, r.events)
  {
    var p := Put(st, rec.(ready := true));
    PutValid(st, rec.(ready := true));
    ProcessQueueEffect(p);
  }

  /** `markServerAsUnready`: the record is stored unready and nothing queued is sent. */
  lemma MarkUnreadyKeepsQueue(st: State, rec: Server)
    requires Valid(st)
    ensures var r := MarkUnready(st, rec);
      && Valid(r) && rec.identifier in r.servers && r.servers[rec.identifier] == rec.(ready := false)
      && r.queue == st.queue && r.sends == st.sends && r.events == st.events
  {
    PutValid(st, rec.(ready := false));
  }

  /** How the HTTP request of a send ended: `ok`, not `ok`, or thrown. */
  datatype SendOutcome = Delivered | NotOk | Threw

  /** The end of the HTTP send `k`. A delivered request that waits for an answer arms the
      three-second timer on the first pending entry with its command and server; a failed one
      is reported (not ok) or dropped from `commands` with the shared-either filter and its
      promise rejected (thrown). A request that waits for no answer settles with `undefined`
      when delivered and with `null` otherwise. */
  function CompleteSend(st: State, k: nat, outcome: SendOutcome): State
    requires k < |st.sends|
  {
    var s := st.sends[k];
    var st0 := st.(sends := RemoveAt(st.sends, k));
    if s.response then
      match outcome
      case Delivered =>
        (match FirstIndex(st0.commands, (e: CommandRequest) => e.command == s.command && e.identifier == s.identifier)
         case None => st0
         case Some(i) =>
           var t := st0.nextTimer;
           st0.(commands := st0.commands[i := st0.commands[i].(timer := Some(t))],
                timers := st0.timers + [CommandTimer(t, s.command, s.identifier, s.promise)],
                nextTimer := t + 1))
      case NotOk => Emit(st0, Some(s.identifier), Error(SendFailed))
      case Threw => SettleIn(st0.(commands := DropEither(st0.commands, s.command, s.identifier)), s.promise, Rejected)
    else if outcome == Delivered then SettleIn(st0, s.promise, Resolved(Undefined))
    else SettleIn(Emit(st0, Some(s.identifier), Error(SendFailed)), s.promise, Resolved(Null))
  }

  /** The end of a send that waits for an answer. Delivered: the first pending entry with its
      command and server gets a fresh timer tied to the send's promise, and nothing else changes;
      not ok: the failure is reported and the promise stays pending, with no timer; thrown:
      the shared-either filter runs and the promise is rejected. The send leaves `sends`. */
  lemma CompleteAwaitedSend(st: State, k: nat, outcome: SendOutcome)
    requires k < |st.sends| && st.sends[k].response
    ensures var s, r := st.sends[k], CompleteSend(st, k, outcome);
      && multiset(r.sends) + multiset{s} == multiset(st.sends)
      && (outcome == Delivered ==>
            && r.settled == st.settled && |r.commands| == |st.commands|
            && (forall i :: 0 <= i < |st.commands| && r.commands[i] != st.commands[i] ==>
                  && st.commands[i].command == s.command && st.commands[i].identifier == s.identifier
                  && r.commands[i] == st.commands[i].(timer := Some(st.nextTimer))
                  && r.timers == st.timers + [CommandTimer(st.nextTimer, s.command, s.identifier, s.promise)])
            && (r.timers != st.timers ==> exists e :: e in st.commands && e.command == s.command && e.identifier == s.identifier))
      && (outcome == NotOk ==>
            && r.settled == st.settled && r.commands == st.commands && r.timers == st.timers
            && r.events == st.events + [Emitted(Some(s.identifier), Error(SendFailed))])
      && (outcome == Threw ==>
            && (forall x :: x in r.commands <==> x in st.commands && x.command != s.command && x.identifier != s.identifier)
            && s.promise in r.settled && (s.promise !in st.settled ==> r.settled[s.promise] == Rejected))
  {
    hide CompleteSend;
    assert st.sends == st.sends[..k] + [st.sends[k]] + st.sends[k + 1..];
    match outcome
    case Delivered => DeliveredEffect(st, k);
    case NotOk => SendFailureEffect(st, k, NotOk);
    case Threw => SendFailureEffect(st, k, Threw);
  }

  lemma DeliveredEffect(st: State, k: nat)
    requires k < |st.sends| && st.sends[k].response
    ensures var s, r := st.sends[k], CompleteSend(st, k, Delivered);
      && r.sends == RemoveAt(st.sends, k)
      && r.settled == st.settled && |r.commands| == |st.commands|
      && (forall i :: 0 <= i < |st.commands| && r.commands[i] != st.commands[i] ==>
            && st.commands[i].command == s.command && st.commands[i].identifier == s.identifier
            && r.commands[i] == st.commands[i].(timer := Some(st.nextTimer))
            && r.timers == st.timers + [CommandTimer(st.nextTimer, s.command, s.identifier, s.promise)])
      && (r.timers != st.timers ==> exists e :: e in st.commands && e.command == s.command && e.identifier == s.identifier)
  {
    var s := st.sends[k];
    match FirstIndex(st.commands, (e: CommandRequest) => e.command == s.command && e.identifier == s.identifier)
    case None =>
    case Some(i) =>
      assert st.commands[i] in st.commands;
  }

  lemma SendFailureEffect(st: State, k: nat, outcome: SendOutcome)
    requires k < |st.sends| && st.sends[k].response && outcome != Delivered
    ensures var s, r := st.sends[k], CompleteSend(st, k, outcome);
      && r.sends == RemoveAt(st.sends, k)
      && (outcome == NotOk ==>
            && r.settled == st.settled && r.commands == st.commands && r.timers == st.timers
            && r.events == st.events + [Emitted(Some(s.identifier), Error(SendFailed))])
      && (outcome == Threw ==>
            && (forall x :: x in r.commands <==> x in st.commands && x.command != s.command && x.identifier != s.identifier)
            && s.promise in r.settled && (s.promise !in st.settled ==> r.settled[s.promise] == Rejected))
  {
  }

  /** The end of a send that waits for no answer: its promise settles, with `undefined` when the
      request was delivered and with `null`, after a reported failure, otherwise. */
  lemma CompleteFireAndForget(st: State, k: nat, outcome: SendOutcome)
    requires k < |st.sends| && !st.sends[k].response && st.sends[k].promise !in st.settled
    ensures var s, r := st.sends[k], CompleteSend(st, k, outcome);
      && s.promise in r.settled
      && r.settled[s.promise] == (if outcome == Delivered then Resolved(Undefined) else Resolved(Null))
      && r.commands == st.commands && r.timers == st.timers
      && (outcome == Delivered <==> r.events == st.events)
  {
  }

  /** The three-second timer `k` fires: the shared-either filter runs on `commands` and the
      promise of the send that armed it resolves with `undefined`. */
  function FireTimeout(st: State, k: nat): State
    requires k < |st.timers|
  {
    var t := st.timers[k];
    SettleIn(st.(timers := RemoveAt(st.timers, k), commands := DropEither(st.commands, t.command, t.identifier)),
             t.promise, Resolved(Undefined))
  }

  /** After a timeout no pending entry shares the command text or the server of the timed-out
      command, and its promise has settled (with `undefined` unless it had settled before). */
  lemma TimeoutClearsShared(st: State, k: nat)
    requires k < |st.timers|
    ensures var t, r := st.timers[k], FireTimeout(st, k);
      && (forall x :: x in r.commands ==> x.command != t.command && x.identifier != t.identifier)
      && (forall x :: x in st.commands && x.command != t.command && x.identifier != t.identifier ==> x in r.commands)
      && t.promise in r.settled
      && (t.promise !in st.settled ==> r.settled[t.promise] == Resolved(Undefined))
      && |r.timers| == |st.timers| - 1
  {
  }

  /** A polling interval fires: `sendCommand` without waiting for an answer. */
  function Tick(st: State, k: nat): State
    requires k in st.intervals
  {
    SendCommand(st, st.intervals[k].identifier, st.intervals[k].command, false).st
  }
}
