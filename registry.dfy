/**
 * The server registry (src/classes/RCEManager.ts): the records built by the
 * constructor, `addServer` with its subscription callbacks and its retry,
 * `removeServer`, `handleServiceState`, `clean`, the re-add on socket open and
 * the flag-expiry timers the console handler arms.
 */
module Registry {
  import opened Text
  import opened Lists
  import opened Events
  import opened Pending
  import opened Records
  import opened Sending

  /** The record the constructor stores for one option, with two new empty arrays. The
      constructor's records are the first of their server, so the handles 0 and 1 are new for
      it (a name given twice keeps only its last record). */
  function NewRecord(o: ServerOptions): Server
  {
    Server(o.identifier, o.serverId, None, o.region, o.refreshPlayers, o.rfBroadcasting, 0, o.heliFeeds,
           o.bradFeeds, StateOrEmpty(o.state), 1, [], false, false, "UNKNOWN", [])
  }

  /** A manager before anything happened: no servers, no token, no socket. */
  const Initial: State :=
    State(map[], [], map[], [], [], map[], 0, [], [], 0, [], Heap(map[], map[], 2, map[], 0), map[], 0, [], [], [], 0,
          false, false, [])

  /** The constructor's `servers.forEach`: one record per option, in order. */
  function PutAll(st: State, opts: seq<ServerOptions>): State
    decreases opts
  {
    if opts == [] then st else PutAll(Put(st, NewRecord(opts[0])), opts[1..])
  }

  function Construct(opts: seq<ServerOptions>): State
  {
    PutAll(Initial, opts)
  }

  /** The option with this name that comes last. */
  predicate LastWith(opts: seq<ServerOptions>, i: int)
  {
    0 <= i < |opts| && forall j :: i < j < |opts| ==> opts[j].identifier != opts[i].identifier
  }

  /** Storing records touches nothing but the records and their order. */
  lemma {:induction false} PutAllKeeps(st: State, opts: seq<ServerOptions>)
    ensures var r := PutAll(st, opts); r == st.(servers := r.servers, keys := r.keys)
    decreases opts
  {
    if opts != [] {
      PutAllKeeps(Put(st, NewRecord(opts[0])), opts[1..]);
    }
  }

  lemma {:induction false} PutAllValid(st: State, opts: seq<ServerOptions>)
    requires Valid(st)
    ensures Valid(PutAll(st, opts))
    decreases opts
  {
    if opts != [] {
      PutValid(st, NewRecord(opts[0]));
      PutAllValid(Put(st, NewRecord(opts[0])), opts[1..]);
    }
  }

  lemma {:induction false} PutAllDomain(st: State, opts: seq<ServerOptions>)
    ensures forall k :: k in PutAll(st, opts).servers <==> k in st.servers || exists o :: o in opts && o.identifier == k
    decreases opts
  {
    if opts != [] {
      var st1 := Put(st, NewRecord(opts[0]));
      PutAllDomain(st1, opts[1..]);
      var r := PutAll(st1, opts[1..]);
      forall k | k in r.servers ensures k in st.servers || exists o :: o in opts && o.identifier == k {
        if k !in st1.servers {
          var o :| o in opts[1..] && o.identifier == k;
          assert o in opts;
        }
      }
      forall k | k in st.servers || (exists o :: o in opts && o.identifier == k) ensures k in r.servers {
        if k !in st.servers {
          var o :| o in opts && o.identifier == k;
          if o != opts[0] {
            var j :| 0 <= j < |opts| && opts[j] == o;
            assert opts[1..][j - 1] == o;
          }
        }
      }
    }
  }

  lemma {:induction false} PutAllLast(st: State, opts: seq<ServerOptions>)
    ensures forall i :: LastWith(opts, i) ==>
      opts[i].identifier in PutAll(st, opts).servers && PutAll(st, opts).servers[opts[i].identifier] == NewRecord(opts[i])
    decreases opts
  {
    if opts != [] {
      var st1 := Put(st, NewRecord(opts[0]));
      PutAllLast(st1, opts[1..]);
      PutAllDomain(st1, opts[1..]);
      var r := PutAll(st1, opts[1..]);
      forall i | LastWith(opts, i) ensures opts[i].identifier in r.servers && r.servers[opts[i].identifier] == NewRecord(opts[i]) {
        if i == 0 {
          PutAllUntouched(st1, opts[1..], opts[0].identifier);
        } else {
          assert LastWith(opts[1..], i - 1) by {
            forall j | i - 1 < j < |opts[1..]| ensures opts[1..][j].identifier != opts[1..][i - 1].identifier {
              assert opts[1..][j] == opts[j + 1];
            }
          }
        }
      }
    }
  }

  /** A name no later option mentions keeps its record. */
  lemma {:induction false} PutAllUntouched(st: State, opts: seq<ServerOptions>, k: string)
    requires k in st.servers && forall o :: o in opts ==> o.identifier != k
    ensures k in PutAll(st, opts).servers && PutAll(st, opts).servers[k] == st.servers[k]
    decreases opts
  {
    if opts != [] {
      assert opts[0] in opts;
      forall o | o in opts[1..] ensures o.identifier != k {
        assert o in opts;
      }
      PutAllUntouched(Put(st, NewRecord(opts[0])), opts[1..], k);
    }
  }

  /** The constructor: the registry is consistent, holds exactly the named servers, and a name
      given twice keeps the record of its last option; no record is added, ready or known to be
      running yet. */
  lemma ConstructEffect(opts: seq<ServerOptions>)
    ensures var r := Construct(opts);
      && Valid(r)
      && (forall k :: k in r.servers <==> exists o :: o in opts && o.identifier == k)
      && (forall i :: LastWith(opts, i) ==> opts[i].identifier in r.servers && r.servers[opts[i].identifier] == NewRecord(opts[i]))
      && (forall k :: k in r.servers ==> !r.servers[k].added && !r.servers[k].ready && r.servers[k].serviceState == "UNKNOWN")
      && (forall k :: k in r.servers ==> FlagsOf(r, r.servers[k]) == [] && ActiveOf(r, r.servers[k]) == [])
      && !r.hasToken && !r.socket && r.events == [] && r.queue == [] && r.intervals == map[]
  {
    hide PutAll;
    PutAllValid(Initial, opts);
    PutAllDomain(Initial, opts);
    PutAllLast(Initial, opts);
    PutAllKeeps(Initial, opts);
    var r := Construct(opts);
    forall k | k in r.servers
      ensures !r.servers[k].added && !r.servers[k].ready && r.servers[k].serviceState == "UNKNOWN"
    {
      var o :| o in opts && o.identifier == k;
      var i :| 0 <= i < |opts| && opts[i] == o;
      var last := LastIndexWith(opts, i);
      assert r.servers[k] == NewRecord(opts[last]);
    }
  }

  /** The last option with the same name as option `i`. */
  lemma {:induction false} LastIndexWith(opts: seq<ServerOptions>, i: nat) returns (last: nat)
    requires i < |opts|
    ensures LastWith(opts, last) && opts[last].identifier == opts[i].identifier
    decreases |opts| - i
  {
    if exists j :: i < j < |opts| && opts[j].identifier == opts[i].identifier {
      var j :| i < j < |opts| && opts[j].identifier == opts[i].identifier;
      last := LastIndexWith(opts, j);
    } else {
      last := i;
    }
  }

  /** The polling intervals `addServer` starts, as its options ask for them. */
  function PollIntervals(o: ServerOptions): (r: seq<Interval>)
    ensures forall iv :: iv in r ==> iv.identifier == o.identifier
    ensures (o.refreshPlayers > 0 <==> Interval(o.identifier, "Users") in r)
    ensures (o.rfBroadcasting <==> Interval(o.identifier, "rf.listboardcaster") in r)
    ensures (o.heliFeeds <==> Interval(o.identifier, "find_entity servergibs_patrolhelicopter") in r)
    ensures (o.bradFeeds <==> Interval(o.identifier, "find_entity servergibs_bradley") in r)
  {
    When(o.refreshPlayers > 0, Interval(o.identifier, "Users"))
    + When(o.rfBroadcasting, Interval(o.identifier, "rf.listboardcaster"))
    + When(o.heliFeeds, Interval(o.identifier, "find_entity servergibs_patrolhelicopter"))
    + When(o.bradFeeds, Interval(o.identifier, "find_entity servergibs_bradley"))
  }

  /** The interval, when its option is on. */
  function When(on: bool, iv: Interval): (r: seq<Interval>)
    ensures iv in r <==> on
    ensures forall x :: x in r ==> x == iv
  {
    if on then [iv] else []
  }

  /** `setInterval` for each interval in turn, with handles `next`, `next + 1`, ... */
  function Arm(m: map<nat, Interval>, next: nat, ivs: seq<Interval>): map<nat, Interval>
    decreases ivs
  {
    if ivs == [] then m else Arm(m[next := ivs[0]], next + 1, ivs[1..])
  }

  lemma {:induction false} ArmEffect(m: map<nat, Interval>, next: nat, ivs: seq<Interval>)
    requires forall h :: h in m ==> h < next
    ensures var r := Arm(m, next, ivs);
      && (forall h :: h in r <==> h in m || next <= h < next + |ivs|)
      && (forall h :: h in m ==> r[h] == m[h])
      && (forall i :: 0 <= i < |ivs| ==> r[next + i] == ivs[i])
    decreases ivs
  {
    if ivs != [] {
      var m1 := m[next := ivs[0]];
      ArmEffect(m1, next + 1, ivs[1..]);
      var r := Arm(m, next, ivs);
      assert r == Arm(m1, next + 1, ivs[1..]);
      forall i | 0 <= i < |ivs| ensures next + i in r && r[next + i] == ivs[i] {
        if i == 0 {
          assert next in m1;
        } else {
          assert next + 1 + (i - 1) == next + i;
          assert ivs[1..][i - 1] == ivs[i];
        }
      }
    }
  }

  function Handles(next: nat, n: nat): (r: seq<nat>)
    ensures |r| == n && forall i :: 0 <= i < n ==> r[i] == next + i
  {
    seq(n, i requires 0 <= i < n => next + i)
  }

  /** The record `addServer` stores once it has a socket, with two new empty arrays, the
      handles `next` and `next + 1`. */
  function Registered(o: ServerOptions, sid: int, current: string, handles: seq<nat>, next: nat): Server
  {
    Server(o.identifier, o.serverId, Some(sid), o.region, o.refreshPlayers, o.rfBroadcasting, next, o.heliFeeds,
           o.bradFeeds, StateOrEmpty(o.state), next + 1, [], true, false, current, handles)
  }

  /** The two empty arrays `[]` of a new record of server `id`, under the next two handles. */
  function NewArrays(h: Heap, id: string): (r: Heap)
    ensures ListAt(r.rfLists, id, h.nextList) == [] && ListAt(r.flagLists, id, h.nextList + 1) == []
    ensures r.objects == h.objects && r.nextObject == h.nextObject && r.nextList == h.nextList + 2
  {
    h.(rfLists := h.rfLists[ListRef(id, h.nextList) := []], flagLists := h.flagLists[ListRef(id, h.nextList + 1) := []],
       nextList := h.nextList + 2)
  }

  /** The socket branch of `addServer`: the record, its polling intervals, its request entry and
      the console subscription, whose callback has not run yet. */
  function Register(st: State, o: ServerOptions, sid: int, current: string): State
  {
    var ivs := PollIntervals(o);
    var rec := Registered(o, sid, current, Handles(st.nextInterval, |ivs|), st.heap.nextList);
    Put(st, rec).(heap := NewArrays(st.heap, o.identifier),
                  requests := st.requests[o.identifier := Request(sid, o.region, o.identifier)],
                  intervals := Arm(st.intervals, st.nextInterval, ivs),
                  nextInterval := st.nextInterval + |ivs|,
                  subscriptions := st.subscriptions + [Subscription(o.identifier, o.refreshPlayers > 0, current == "RUNNING")])
  }

  /** `Register` spelled out in its parts. */
  lemma RegisterParts(st: State, o: ServerOptions, sid: int, current: string)
    ensures var ivs := PollIntervals(o);
      Register(st, o, sid, current)
      == Put(st, Registered(o, sid, current, Handles(st.nextInterval, |ivs|), st.heap.nextList)).(
           heap := NewArrays(st.heap, o.identifier),
           requests := st.requests[o.identifier := Request(sid, o.region, o.identifier)],
           intervals := Arm(st.intervals, st.nextInterval, ivs),
           nextInterval := st.nextInterval + |ivs|,
           subscriptions := st.subscriptions + [Subscription(o.identifier, o.refreshPlayers > 0, current == "RUNNING")])
  {
  }

  /** Registering keeps the registry consistent and stores the added but not yet ready record
      under its name, with its request entry; every other record stays. */
  lemma RegisterRecord(st: State, o: ServerOptions, sid: int, current: string)
    requires Valid(st)
    ensures var r := Register(st, o, sid, current);
      && Valid(r)
      && o.identifier in r.servers
      && r.servers[o.identifier] == Registered(o, sid, current, Handles(st.nextInterval, |PollIntervals(o)|), st.heap.nextList)
      && FlagsOf(r, r.servers[o.identifier]) == [] && ActiveOf(r, r.servers[o.identifier]) == []
      && (forall k :: k != o.identifier ==> (k in r.servers <==> k in st.servers))
      && (forall k :: k in st.servers && k != o.identifier ==> r.servers[k] == st.servers[k])
      && r.requests[o.identifier] == Request(sid, o.region, o.identifier)
      && r.queue == st.queue && r.commands == st.commands && r.events == st.events
  {
    RegisterValid(st, o, sid, current);
    hide Valid;
    RegisterParts(st, o, sid, current);
    hide Register, PollIntervals, Arm;
  }

  lemma RegisterValid(st: State, o: ServerOptions, sid: int, current: string)
    requires Valid(st)
    ensures Valid(Register(st, o, sid, current))
  {
    RegisterParts(st, o, sid, current);
    hide Register, PollIntervals;
    var ivs := PollIntervals(o);
    ArmEffect(st.intervals, st.nextInterval, ivs);
    PutValid(st, Registered(o, sid, current, Handles(st.nextInterval, |ivs|), st.heap.nextList));
  }

  /** Registering starts the polling intervals under fresh handles, the ones the record holds,
      and leaves every interval that was running before, including those of a record it replaces. */
  lemma RegisterIntervals(st: State, o: ServerOptions, sid: int, current: string)
    requires Valid(st)
    ensures var r, ivs := Register(st, o, sid, current), PollIntervals(o);
      && (forall i :: 0 <= i < |ivs| ==> st.nextInterval + i in r.intervals && r.intervals[st.nextInterval + i] == ivs[i])
      && (forall h :: h in r.intervals <==> h in st.intervals || st.nextInterval <= h < st.nextInterval + |ivs|)
      && (forall h :: h in st.intervals ==> h in r.intervals && r.intervals[h] == st.intervals[h])
      && (forall h :: h in st.intervals ==> h !in Handles(st.nextInterval, |ivs|))
  {
    RegisterParts(st, o, sid, current);
    hide Register, PollIntervals, Put;
    ArmEffect(st.intervals, st.nextInterval, PollIntervals(o));
  }

  /** What `addServer` returns: `false`, or nothing (`None`) once it went past its checks. */
  datatype Added = Added(st: State, result: Option<bool>)

  /** `addServer` once its two lookups are done: `sid` is the resolved server id and `current`
      the fetched service state, absent when the lookup failed. Without a socket the call is
      scheduled again. */
  function AddServer(st: State, o: ServerOptions, sid: Option<int>, current: Option<string>): Added
  {
    if sid.None? || sid.value == 0 then Added(Emit(st, None, Error(NoServerId(o.identifier))), Some(false))
    else if current.None? || current.value == "" then Added(Emit(st, None, Error(NoCurrentState(o.identifier))), Some(false))
    else if current.value == "SUSPENDED" then Added(st, Some(false))
    else if st.socket then Added(Register(st, o, sid.value, current.value), None)
    else Added(st.(adds := st.adds + [o]), None)
  }

  /** `addServer` answers `false` exactly when a lookup failed or the server is suspended, and
      then changes nothing but the error it reports; otherwise it registers the server or, without
      a socket, schedules itself again. */
  lemma AddServerOutcome(st: State, o: ServerOptions, sid: Option<int>, current: Option<string>)
    ensures var a := AddServer(st, o, sid, current);
      && (a.result == Some(false) <==>
            sid.None? || sid.value == 0 || current.None? || current.value == "" || current.value == "SUSPENDED")
      && (a.result.Some? ==> a.st.servers == st.servers && a.st.adds == st.adds && a.st.intervals == st.intervals)
      && (a.result == Some(false) && sid.Some? && sid.value != 0 && current == Some("SUSPENDED") ==> a.st == st)
      && (sid.None? || sid.value == 0 ==> a.st.events == st.events + [Emitted(None, Error(NoServerId(o.identifier)))])
      && (a.result.None? && st.socket ==> a.st == Register(st, o, sid.value, current.value))
      && (a.result.None? && !st.socket ==> a.st == st.(adds := st.adds + [o]))
  {
  }

  /** The scheduled `addServer` call `k` runs again. */
  function RetryAdd(st: State, k: nat, sid: Option<int>, current: Option<string>): Added
    requires k < |st.adds|
  {
    AddServer(st.(adds := RemoveAt(st.adds, k)), st.adds[k], sid, current)
  }

  /** The options `addServer` reads from a stored record. */
  function OptionsOf(rec: Server): ServerOptions
  {
    ServerOptions(rec.identifier, rec.serverId, rec.region, rec.refreshPlayers, rec.rfBroadcasting, rec.heliFeeds,
                  rec.bradFeeds, rec.state)
  }

  /** The options of the servers among `ks` that are not added, in order. */
  function Unadded(servers: map<string, Server>, ks: seq<string>): (r: seq<ServerOptions>)
    ensures forall o :: o in r ==> exists k :: k in ks && k in servers && !servers[k].added && o == OptionsOf(servers[k])
    ensures forall k :: k in ks && k in servers && !servers[k].added ==> OptionsOf(servers[k]) in r
    decreases ks
  {
    if ks == [] then []
    else (if ks[0] in servers && !servers[ks[0]].added then [OptionsOf(servers[ks[0]])] else []) + Unadded(servers, ks[1..])
  }

  /** The socket's "open" handler: every server not added yet is added again. */
  function Open(st: State): State
  {
    st.(adds := st.adds + Unadded(st.servers, st.keys))
  }

  /** How the subscription sends of `addServer` ended: the console subscription failed, the
      service-state subscription failed, or both went through. */
  datatype SubscribeOutcome = ConsoleFailed | StateFailed | Subscribed

  /** The callbacks of the subscription `k`. After the console subscription a server asking for
      player refreshes gets "Users" at once, and a server that was running when added is marked
      ready from its stored record; a failed send is reported. */
  function SubscriptionDone(st: State, k: nat, outcome: SubscribeOutcome): State
    requires k < |st.subscriptions|
  {
    var sub := st.subscriptions[k];
    var st0 := st.(subscriptions := RemoveAt(st.subscriptions, k));
    if outcome == ConsoleFailed then Emit(st0, None, Error(AddFailed))
    else
      var st1 := Subscribed(st0, sub);
      if outcome == StateFailed then Emit(st1, None, Error(AddFailed)) else st1
  }

  /** What follows a console subscription that went through. */
  function Subscribed(st: State, sub: Subscription): State
  {
    var st1 := if sub.refreshPlayers then SendCommand(st, sub.identifier, "Users", false).st else st;
    if sub.running && sub.identifier in st1.servers then MarkReady(st1, st1.servers[sub.identifier]) else st1
  }

  lemma SubscribedEffect(st: State, sub: Subscription)
    requires Valid(st)
    ensures var r := Subscribed(st, sub);
      && Valid(r)
      && (sub.running && sub.identifier in st.servers ==>
            && sub.identifier in r.servers && r.servers[sub.identifier].ready
            && (forall e :: e in r.queue ==> e.identifier != sub.identifier))
      && (!sub.running ==> r.servers == st.servers)
  {
    hide SendCommand, MarkReady;
    var st1 := if sub.refreshPlayers then SendCommand(st, sub.identifier, "Users", false).st else st;
    SendCommandKeeps(st, sub.identifier, "Users", false);
    SameRegistryValid(st1, st);
    if sub.running && sub.identifier in st1.servers {
      MarkReadyDrains(st1, st1.servers[sub.identifier]);
    }
  }

  /** A failed console subscription only reports; otherwise a server that was running becomes
      ready with nothing of it left in the queue, and the registry stays consistent. */
  lemma SubscriptionDoneEffect(st: State, k: nat, outcome: SubscribeOutcome)
    requires Valid(st) && k < |st.subscriptions|
    ensures var sub, r := st.subscriptions[k], SubscriptionDone(st, k, outcome);
      && Valid(r)
      && (outcome == ConsoleFailed ==>
            r.servers == st.servers && r.queue == st.queue && r.events == st.events + [Emitted(None, Error(AddFailed))])
      && (outcome != ConsoleFailed && sub.running && sub.identifier in st.servers ==>
            && sub.identifier in r.servers && r.servers[sub.identifier].ready
            && (forall e :: e in r.queue ==> e.identifier != sub.identifier))
      && (outcome != ConsoleFailed && !sub.running ==> r.servers == st.servers)
  {
    hide Subscribed;
    var st0 := st.(subscriptions := RemoveAt(st.subscriptions, k));
    assert SameRegistry(st0, st);
    SameRegistryValid(st0, st);
    SubscribedEffect(st0, st.subscriptions[k]);
  }

  /** `getServer`: the record stored under `id`, if any. */
  function GetServer(st: State, id: string): (r: Option<Server>)
    ensures r.Some? <==> id in st.servers
    ensures r.Some? ==> r.value == st.servers[id]
  {
    if id in st.servers then Some(st.servers[id]) else None
  }

  /** A record just stored is what `getServer` finds under its name; after `removeServer` the name
      finds nothing; neither changes what any other name finds. */
  lemma GetServerAfter(st: State, rec: Server, id: string, other: string)
    requires other != rec.identifier && other != id
    ensures GetServer(Put(st, rec), rec.identifier) == Some(rec)
    ensures GetServer(RemoveServer(st, id), id) == None
    ensures GetServer(Put(st, rec), other) == GetServer(st, other)
    ensures GetServer(RemoveServer(st, id), other) == GetServer(st, other)
  {
  }

  /** `removeServer`: the record goes with the intervals it holds, and so does the request entry
      under its name. */
  function RemoveServer(st: State, id: string): State
  {
    var handles := if id in st.servers then st.servers[id].intervals else [];
    var requests := if id in st.requests then st.requests - {st.requests[id].identifier} else st.requests;
    st.(servers := st.servers - {id}, keys := Filter(st.keys, (k: string) => k != id),
        intervals := map h | h in st.intervals && h !in handles :: st.intervals[h], requests := requests)
  }

  /** After `removeServer` the name is gone, every other server is untouched, the record's
      intervals stop and every other interval keeps running; the registry stays consistent. */
  lemma RemoveServerEffect(st: State, id: string)
    requires Valid(st)
    ensures var r := RemoveServer(st, id);
      && Valid(r)
      && id !in r.servers && id !in r.keys
      && (forall k :: k != id ==> (k in r.servers <==> k in st.servers) && (k in st.servers ==> r.servers[k] == st.servers[k]))
      && (id in st.servers ==> forall h :: h in st.servers[id].intervals ==> h !in r.intervals)
      && (forall h :: h in st.intervals && (id !in st.servers || h !in st.servers[id].intervals) ==>
            h in r.intervals && r.intervals[h] == st.intervals[h])
      && (id in st.requests && st.requests[id].identifier == id ==> id !in r.requests)
      && r.queue == st.queue && r.commands == st.commands && r.events == st.events
  {
    FilterNoDup(st.keys, (k: string) => k != id);
  }

  /** `handleServiceState` for the stored record `srv` and the reported state. */
  function HandleServiceState(st: State, srv: Server, state: string): State
  {
    if srv.serviceState == state then st
    else
      var st1 := Readiness(Put(st, srv.(serviceState := state)), srv, state);
      var st2 := Emit(st1, Some(srv.identifier), ServiceState(state));
      if state == "SUSPENDED" then RemoveServer(st2, srv.identifier) else st2
  }

  /** The two readiness changes of `handleServiceState`; both write back `srv` itself. */
  function Readiness(st: State, srv: Server, state: string): State
  {
    if state == "RUNNING" && !srv.ready then MarkReady(st, srv)
    else if state == "STOPPED" && srv.ready then MarkUnready(st, srv)
    else st
  }

  lemma ReadinessEffect(st: State, srv: Server, state: string)
    requires Valid(st)
    ensures var r := Readiness(st, srv, state);
      && Valid(r) && ErrorsAdded(st.events, r.events)
      && (state == "RUNNING" && !srv.ready ==>
            && srv.identifier in r.servers && r.servers[srv.identifier] == srv.(ready := true)
            && (forall e :: e in r.queue ==> e.identifier != srv.identifier))
      && (state == "STOPPED" && srv.ready ==> srv.identifier in r.servers && r.servers[srv.identifier] == srv.(ready := false))
      && (!(state == "RUNNING" && !srv.ready) && !(state == "STOPPED" && srv.ready) ==> r == st)
  {
    hide MarkReady, MarkUnready;
    if state == "RUNNING" && !srv.ready {
      MarkReadyDrains(st, srv);
    } else if state == "STOPPED" && srv.ready {
      MarkUnreadyKeepsQueue(st, srv);
    }
  }

  function CountServiceStates(evs: seq<Emitted>): nat
  {
    |Filter(evs, (e: Emitted) => e.event.ServiceState?)|
  }

  lemma ErrorsAddNoServiceState(before: seq<Emitted>, after: seq<Emitted>)
    requires ErrorsAdded(before, after)
    ensures CountServiceStates(after) == CountServiceStates(before)
  {
    assert after == before + after[|before|..];
    FilterAppend(before, after[|before|..], (e: Emitted) => e.event.ServiceState?);
    FilterKeepsNone(after[|before|..], (e: Emitted) => e.event.ServiceState?);
  }

  /** A reported state equal to the stored one changes nothing; a new one is announced exactly
      once. The new state is stored, except that a server that starts running or stops is
      written back from the record it had, so its stored state stays the old one; a suspended
      server is removed. */
  lemma ServiceStateEffect(st: State, srv: Server, state: string)
    requires Valid(st)
    ensures var r := HandleServiceState(st, srv, state);
      && Valid(r)
      && (srv.serviceState == state ==> r == st)
      && (srv.serviceState != state ==>
            && CountServiceStates(r.events) == CountServiceStates(st.events) + 1
            && r.events[|r.events| - 1] == Emitted(Some(srv.identifier), ServiceState(state)))
      && (srv.serviceState != state && state == "SUSPENDED" ==> srv.identifier !in r.servers)
      && (srv.serviceState != state && state == "RUNNING" && !srv.ready ==>
            && srv.identifier in r.servers && r.servers[srv.identifier] == srv.(ready := true)
            && forall e :: e in r.queue ==> e.identifier != srv.identifier)
      && (srv.serviceState != state && state == "STOPPED" && srv.ready ==>
            srv.identifier in r.servers && r.servers[srv.identifier] == srv.(ready := false))
      && (srv.serviceState != state && state != "SUSPENDED" && !(state == "RUNNING" && !srv.ready)
          && !(state == "STOPPED" && srv.ready) ==>
            srv.identifier in r.servers && r.servers[srv.identifier] == srv.(serviceState := state))
  {
    hide Readiness, RemoveServer, CountServiceStates;
    if srv.serviceState != state {
      var st1 := Put(st, srv.(serviceState := state));
      PutValid(st, srv.(serviceState := state));
      var st2 := Readiness(st1, srv, state);
      ReadinessEffect(st1, srv, state);
      ErrorsAddNoServiceState(st1.events, st2.events);
      var st3 := Emit(st2, Some(srv.identifier), ServiceState(state));
      EmitServiceState(st2.events, Emitted(Some(srv.identifier), ServiceState(state)));
      if state == "SUSPENDED" {
        RemoveServerEffect(st3, srv.identifier);
      }
    }
  }

  lemma EmitServiceState(evs: seq<Emitted>, e: Emitted)
    requires e.event.ServiceState?
    ensures CountServiceStates(evs + [e]) == CountServiceStates(evs) + 1
  {
    FilterAppend(evs, [e], (x: Emitted) => x.event.ServiceState?);
  }

  /** The fields `clean` resets on every record. */
  function Cleaned(rec: Server): Server
  {
    rec.(players := [], added := false, ready := false, trueServerId := None)
  }

  /** Some stored record holds the interval handle `h`. */
  predicate Owned(servers: map<string, Server>, h: nat)
  {
    exists k :: k in servers && h in servers[k].intervals
  }

  /** `clean`: every record is reset and its intervals stop; requests, pending commands, the
      queue and the socket go. Intervals no record holds any more keep running, and armed
      timers and sends in flight stay. */
  function Clean(st: State): State
  {
    st.(servers := map k | k in st.servers :: Cleaned(st.servers[k]),
        intervals := map h | h in st.intervals && !Owned(st.servers, h) :: st.intervals[h],
        requests := map[], commands := [], queue := [], socket := false)
  }

  lemma CleanEffect(st: State)
    requires Valid(st)
    ensures var r := Clean(st);
      && Valid(r) && r.keys == st.keys
      && (forall k :: k in r.servers ==> !r.servers[k].added && !r.servers[k].ready && r.servers[k].players == []
                                         && r.servers[k].trueServerId.None?)
      && (forall k :: k in r.servers ==> r.servers[k].flags == st.servers[k].flags
                                         && r.servers[k].serviceState == st.servers[k].serviceState)
      && (forall k, h :: k in st.servers && h in st.servers[k].intervals ==> h !in r.intervals)
      && (forall e :: e in st.queue ==> e !in r.queue) && r.commands == [] && r.requests == map[] && !r.socket
      && r.timers == st.timers && r.sends == st.sends && r.settled == st.settled && r.events == st.events
  {
  }

  /** The flag timer `k` fires: `server.flags = server.flags.filter(f => f !== flag)` on the
      object its callback holds, which gets a new array, then a copy of that object is stored. */
  function FireFlagAsWritten(st: State, k: nat): State
    requires k < |st.flagTimers| && st.flagTimers[k].obj in st.heap.objects
  {
    var t := st.flagTimers[k];
    Expire(st, k, Filter(FlagsOf(st, st.heap.objects[t.obj]), (f: string) => f != t.flag))
  }

  /** The timer as evidently intended: the flag goes from the flags the server's record holds
      now, not from the array its own object held when the timer was armed. */
  function FireFlag(st: State, k: nat): State
    requires k < |st.flagTimers| && st.flagTimers[k].obj in st.heap.objects
  {
    var t := st.flagTimers[k];
    var o := st.heap.objects[t.obj];
    var holder := if o.identifier in st.servers then st.servers[o.identifier] else o;
    Expire(st, k, Filter(ListAt(st.heap.flagLists, o.identifier, holder.flags), (f: string) => f != t.flag))
  }

  /** The end of a timer callback: the timer goes, its object gets a new array holding
      `flags`, and a copy of the object is stored. */
  function Expire(st: State, k: nat, flags: seq<string>): State
    requires k < |st.flagTimers| && st.flagTimers[k].obj in st.heap.objects
  {
    var t := st.flagTimers[k];
    var h := st.heap;
    var rec := h.objects[t.obj].(flags := h.nextList);
    Put(st.(flagTimers := RemoveAt(st.flagTimers, k),
            heap := h.(objects := h.objects[t.obj := rec], flagLists := h.flagLists[ListRef(rec.identifier, h.nextList) := flags],
                       nextList := h.nextList + 1)),
        rec)
  }

  /** After a timer callback the server's record is a copy of the callback's object, which now
      holds exactly `flags`; the timer is gone and every other record stays. */
  lemma ExpireEffect(st: State, k: nat, flags: seq<string>)
    requires Valid(st) && k < |st.flagTimers| && st.flagTimers[k].obj in st.heap.objects
    ensures var t, r := st.flagTimers[k], Expire(st, k, flags);
      var o, id := st.heap.objects[t.obj], st.heap.objects[t.obj].identifier;
      && Valid(r)
      && id in r.servers && r.servers[id] == o.(flags := st.heap.nextList) && FlagsOf(r, r.servers[id]) == flags
      && r.heap.objects == st.heap.objects[t.obj := r.servers[id]]
      && (forall x: Server :: x.flags != st.heap.nextList ==> FlagsOf(r, x) == FlagsOf(st, x))
      && (forall x :: x in st.servers && x != id ==> x in r.servers && r.servers[x] == st.servers[x])
      && r.flagTimers == RemoveAt(st.flagTimers, k)
      && r.events == st.events && r.commands == st.commands && r.queue == st.queue
  {
    var t, h := st.flagTimers[k], st.heap;
    var rec := h.objects[t.obj].(flags := h.nextList);
    var st0 := st.(flagTimers := RemoveAt(st.flagTimers, k),
                   heap := h.(objects := h.objects[t.obj := rec], flagLists := h.flagLists[ListRef(rec.identifier, h.nextList) := flags],
                              nextList := h.nextList + 1));
    assert Valid(st0);
    PutValid(st0, rec);
    hide Valid;
    assert Expire(st, k, flags) == Put(st0, rec);
    hide Expire;
  }

  /** As written, the callback filters the array its own object holds: the flag is gone and
      the server's flags are exactly the other flags of that array, whatever the record held
      since. */
  lemma FireFlagAsWrittenEffect(st: State, k: nat)
    requires Valid(st) && k < |st.flagTimers| && st.flagTimers[k].obj in st.heap.objects
    ensures var t, r := st.flagTimers[k], FireFlagAsWritten(st, k);
      var o, id := st.heap.objects[t.obj], st.heap.objects[t.obj].identifier;
      && Valid(r) && id in r.servers && r.servers[id] == o.(flags := st.heap.nextList)
      && (forall f :: f in FlagsOf(r, r.servers[id]) <==> f != t.flag && f in FlagsOf(st, o))
      && r.heap.objects == st.heap.objects[t.obj := r.servers[id]]
      && (forall x: Server :: x.flags != st.heap.nextList ==> FlagsOf(r, x) == FlagsOf(st, x))
      && r.flagTimers == RemoveAt(st.flagTimers, k)
  {
    var t := st.flagTimers[k];
    ExpireEffect(st, k, Filter(FlagsOf(st, st.heap.objects[t.obj]), (f: string) => f != t.flag));
  }

  /** The first callback as written: the "bradley" timer goes and the other object still holds
      the record whose flags array the callback replaced on its own object only. */
  lemma BradleyFires(st: State, srv: Server, n: nat)
    requires Valid(st) && st.flagTimers == [FlagTimer("bradley", n), FlagTimer("heli", n + 1)]
    requires n in st.heap.objects && st.heap.objects[n] == srv
    requires n + 1 in st.heap.objects && st.heap.objects[n + 1] == srv
    requires srv.flags < st.heap.nextList && "bradley" in FlagsOf(st, srv)
    ensures var f1 := FireFlagAsWritten(st, 0);
      && f1.flagTimers == [FlagTimer("heli", n + 1)]
      && n + 1 in f1.heap.objects && f1.heap.objects[n + 1] == srv
      && "bradley" in FlagsOf(f1, srv) && Valid(f1)
  {
    hide FireFlagAsWritten, Valid, FlagsOf;
    FireFlagAsWrittenEffect(st, 0);
  }

  /** The second callback as written filters the flags of the object it holds, so "bradley"
      stays in the stored record and no timer is left. */
  lemma HeliFires(f1: State, srv: Server, n: nat)
    requires Valid(f1) && f1.flagTimers == [FlagTimer("heli", n + 1)]
    requires n + 1 in f1.heap.objects && f1.heap.objects[n + 1] == srv
    requires "bradley" in FlagsOf(f1, srv)
    ensures var f2, id := FireFlagAsWritten(f1, 0), srv.identifier;
      && f2.flagTimers == [] && id in f2.servers && "bradley" in FlagsOf(f2, f2.servers[id])
  {
    hide FireFlagAsWritten, Valid, FlagsOf;
    FireFlagAsWrittenEffect(f1, 0);
  }

  /** As intended, the flag is gone and every other flag the server's record holds now stays,
      and nothing else is added; the rest of the record is the callback's object, so a server
      removed in between is stored again. */
  lemma FireFlagEffect(st: State, k: nat)
    requires Valid(st) && k < |st.flagTimers| && st.flagTimers[k].obj in st.heap.objects
    ensures var t, r := st.flagTimers[k], FireFlag(st, k);
      var o, id := st.heap.objects[t.obj], st.heap.objects[t.obj].identifier;
      var now := if id in st.servers then FlagsOf(st, st.servers[id]) else FlagsOf(st, o);
      && Valid(r) && id in r.servers && r.servers[id] == o.(flags := st.heap.nextList)
      && (forall f :: f in FlagsOf(r, r.servers[id]) <==> f != t.flag && f in now)
      && r.heap.objects == st.heap.objects[t.obj := r.servers[id]]
      && (forall x: Server :: x.flags != st.heap.nextList ==> FlagsOf(r, x) == FlagsOf(st, x))
      && r.flagTimers == RemoveAt(st.flagTimers, k)
  {
    var t := st.flagTimers[k];
    var o := st.heap.objects[t.obj];
    var holder := if o.identifier in st.servers then st.servers[o.identifier] else o;
    var now := ListAt(st.heap.flagLists, o.identifier, holder.flags);
    ExpireEffect(st, k, Filter(now, (f: string) => f != t.flag));
  }
}
