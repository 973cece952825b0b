/**
 * The manager's data (src/classes/RCEManager.ts, the fields of `RCEManager`;
 * record shapes from src/types.ts). `State` is the value of all fields at one
 * moment, plus the things the source leaves to the JavaScript runtime and the
 * model makes explicit: the armed timers, the HTTP requests in flight and the
 * scheduled reconnects. The operations of the other modules are functions from
 * one `State` to the next.
 */
module Records {
  import opened Text
  import opened Lists
  import opened Events
  import opened Pending

  datatype Region = US | EU

  /** The `state` option of a server: absent, one string or a list of strings. */
  datatype StateOption = NoState | StateText(text: string) | StateList(items: seq<string>)

  /** `state || []`: an absent or empty-string option becomes the empty list. */
  function StateOrEmpty(s: StateOption): (r: StateOption)
    ensures r != NoState && r != StateText("")
    ensures s != NoState && s != StateText("") ==> r == s
  {
    if s == NoState || s == StateText("") then StateList([]) else s
  }

  /** What the user passes for one server; `refreshPlayers` 0 stands for "not given". */
  datatype ServerOptions = ServerOptions(
    identifier: string, serverId: int, region: Region, refreshPlayers: nat,
    rfBroadcasting: bool, heliFeeds: bool, bradFeeds: bool, state: StateOption)

  /** A `RustServer` record; `intervals` holds the handles of its polling intervals, which
      live in `State.intervals`. Its two mutable arrays are held by reference, as in
      JavaScript: `currentRfBroadcasts` and `flags` are handles of arrays that live in
      `State.rfLists` and `State.flagLists`, so every copy `{ ...server }` shares them. */
  datatype Server = Server(
    identifier: string, serverId: int, trueServerId: Option<int>, region: Region, refreshPlayers: nat,
    rfBroadcasting: bool, currentRfBroadcasts: nat, heliFeeds: bool, bradFeeds: bool,
    state: StateOption, flags: nat, players: seq<string>, added: bool, ready: bool, serviceState: string,
    intervals: seq<nat>)

  /** Where an array lives: the records of one server only ever share arrays among
      themselves, so an array is named by its server and a handle. */
  datatype ListRef = ListRef(owner: string, handle: nat)

  /** An entry of `requests`: the subscription id a data frame carries, and its server. */
  datatype Request = Request(sid: int, region: Region, identifier: string)

  /** A polling interval: every period it sends `command` to server `identifier`. */
  datatype Interval = Interval(identifier: string, command: string)

  /** An armed flag-expiry timer: its callback holds `obj`, the handler's own `server`
      object (an entry of `Heap.objects`), and when it fires takes `flag` out of that
      object's flags and stores a copy of the object. */
  datatype FlagTimer = FlagTimer(flag: string, obj: nat)

  /** An armed three-second command timer. */
  datatype CommandTimer = CommandTimer(id: nat, command: string, identifier: string, promise: nat)

  /** A `sendConsoleMessage` request in flight. */
  datatype Send = Send(identifier: string, command: string, response: bool, promise: nat)

  /** A subscription `send` whose callback has not run yet. */
  datatype Subscription = Subscription(identifier: string, refreshPlayers: bool, running: bool)

  /** The JavaScript objects the records point at: the `flags` and `currentRfBroadcasts`
      arrays, and the handler objects the flag timers' callbacks hold. */
  datatype Heap = Heap(
    flagLists: map<ListRef, seq<string>>,
    rfLists: map<ListRef, seq<nat>>,
    nextList: nat,                  // the next array handle
    objects: map<nat, Server>,
    nextObject: nat)

  datatype State = State(
    servers: map<string, Server>,
    keys: seq<string>,               // the insertion order of `servers`
    requests: map<string, Request>,
    commands: seq<CommandRequest>,
    queue: seq<QueuedCommand>,
    settled: map<nat, Settlement>,
    nextPromise: nat,
    sends: seq<Send>,
    timers: seq<CommandTimer>,
    nextTimer: nat,
    flagTimers: seq<FlagTimer>,
    heap: Heap,
    intervals: map<nat, Interval>,  // the running polling intervals, by handle
    nextInterval: nat,
    subscriptions: seq<Subscription>,
    adds: seq<ServerOptions>,        // `addServer` calls scheduled for later
    reconnects: seq<nat>,            // delays, in milliseconds, of the scheduled reconnects
    connectionAttempt: nat,
    socket: bool,
    hasToken: bool,
    events: seq<Emitted>)

  /** The keys list names every server exactly once, every record sits under its own name, and
      every interval handle and every object was handed out before. */
  ghost predicate Valid(st: State)
  {
    && NoDup(st.keys)
    && (forall k :: k in st.servers <==> k in st.keys)
    && (forall k :: k in st.servers ==> st.servers[k].identifier == k)
    && (forall h :: h in st.intervals ==> h < st.nextInterval)
    && (forall o :: o in st.heap.objects ==> o < st.heap.nextObject)
  }

  /** Two states with the same records, request entries, intervals and heap. */
  predicate SameRegistry(a: State, b: State)
  {
    && a.servers == b.servers && a.keys == b.keys && a.requests == b.requests
    && a.intervals == b.intervals && a.nextInterval == b.nextInterval
    && a.heap == b.heap
  }

  /** The array an array handle of a record of `owner` names; an array never written is
      still the empty one it was made as. */
  function ListAt<V>(m: map<ListRef, seq<V>>, owner: string, handle: nat): (r: seq<V>)
    ensures ListRef(owner, handle) in m ==> r == m[ListRef(owner, handle)]
    ensures ListRef(owner, handle) !in m ==> r == []
  {
    if ListRef(owner, handle) in m then m[ListRef(owner, handle)] else []
  }

  /** `rec.flags` as JavaScript reads it. */
  function FlagsOf(st: State, rec: Server): seq<string>
  {
    ListAt(st.heap.flagLists, rec.identifier, rec.flags)
  }

  /** `rec.currentRfBroadcasts` as JavaScript reads it. */
  function ActiveOf(st: State, rec: Server): seq<nat>
  {
    ListAt(st.heap.rfLists, rec.identifier, rec.currentRfBroadcasts)
  }

  /** `rec.flags.push(flag)`: the array itself grows, for every record holding it. */
  function PushFlag(st: State, rec: Server, flag: string): (r: State)
    ensures FlagsOf(r, rec) == FlagsOf(st, rec) + [flag]
    ensures forall x: Server :: x.identifier != rec.identifier || x.flags != rec.flags ==> FlagsOf(r, x) == FlagsOf(st, x)
    ensures r == st.(heap := st.heap.(flagLists := r.heap.flagLists))
  {
    st.(heap := st.heap.(flagLists := st.heap.flagLists[ListRef(rec.identifier, rec.flags) := FlagsOf(st, rec) + [flag]]))
  }

  lemma SameRegistryValid(a: State, b: State)
    requires SameRegistry(a, b) && Valid(b)
    ensures Valid(a)
  {
  }

  /** `servers.set(rec.identifier, rec)`: a new name goes to the end of the insertion order. */
  function Put(st: State, rec: Server): (r: State)
    ensures r.servers == st.servers[rec.identifier := rec]
    ensures rec.identifier in st.servers ==> r.keys == st.keys
    ensures rec.identifier !in st.servers ==> r.keys == st.keys + [rec.identifier]
    ensures r == st.(servers := r.servers, keys := r.keys)
  {
    var keys := if rec.identifier in st.servers then st.keys else st.keys + [rec.identifier];
    st.(servers := st.servers[rec.identifier := rec], keys := keys)
  }

  lemma PutValid(st: State, rec: Server)
    requires Valid(st)
    ensures Valid(Put(st, rec))
  {
    if rec.identifier !in st.servers {
      NoDupAppend(st.keys, [rec.identifier]);
    }
  }

  function Emit(st: State, server: Option<string>, e: Event): State
  {
    st.(events := st.events + [Emitted(server, e)])
  }

  /** The same events, all reported for `server`. */
  function Tag(server: Option<string>, evs: seq<Event>): (r: seq<Emitted>)
    ensures |r| == |evs| && forall k :: 0 <= k < |evs| ==> r[k] == Emitted(server, evs[k])
  {
    seq(|evs|, k requires 0 <= k < |evs| => Emitted(server, evs[k]))
  }

  /** The events `evs`, in order, all for `server`; nothing but the events changes. */
  function EmitAll(st: State, server: Option<string>, evs: seq<Event>): (r: State)
    ensures r == st.(events := r.events)
    ensures r.events == st.events + Tag(server, evs)
  {
    st.(events := st.events + Tag(server, evs))
  }

  function SettleIn(st: State, p: nat, v: Settlement): State
  {
    st.(settled := Settle(st.settled, p, v))
  }
}
