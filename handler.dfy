/**
 * `handleWebsocketMessage` (src/classes/RCEManager.ts): the console lines of one
 * data frame, handled one after the other. The handler works with the object it
 * was given (`Ctx.srv`); what it changes in that object carries over to the next
 * line, and it writes copies of it back into `servers`. Copies share the object's
 * arrays, and a flag timer's callback keeps the object itself (`Ctx.obj` once
 * captured), so later changes to the object are what the callback sees.
 */
module Handler {
  import opened Text
  import opened Lists
  import opened Events
  import opened Pending
  import opened Patterns
  import opened Population
  import opened Rf
  import opened Records
  import opened Registry

  /** The manager's state, the handler's own `server` object and, once a flag timer's
      callback holds that object, its entry in `Heap.objects`. */
  datatype Ctx = Ctx(st: State, srv: Server, obj: Option<nat>)

  /** The handler's object names a record stored under its name and, as within one frame,
      shares its flags array with it (every copy the handler stores keeps that array); once a
      callback holds the object, the object store has it as it is now. */
  predicate Framed(c: Ctx)
  {
    && c.srv.identifier in c.st.servers
    && c.st.servers[c.srv.identifier].identifier == c.srv.identifier
    && c.st.servers[c.srv.identifier].flags == c.srv.flags
    && (c.obj.Some? ==> c.obj.value in c.st.heap.objects && c.st.heap.objects[c.obj.value] == c.srv)
  }

  lemma FramedFacts(c: Ctx)
    requires Framed(c)
    ensures c.srv.identifier in c.st.servers && c.st.servers[c.srv.identifier].identifier == c.srv.identifier
    ensures c.st.servers[c.srv.identifier].flags == c.srv.flags
    ensures FlagsOf(c.st, c.st.servers[c.srv.identifier]) == Flags(c)
  {
  }

  /** `server.flags` as the handler reads it. */
  function Flags(c: Ctx): seq<string>
  {
    FlagsOf(c.st, c.srv)
  }

  const DebrisHeader := "realm ;entity ;group ;parent ;name"

  /** An entity listing that shows the debris `entity` while the handler's `flag` is not set. */
  predicate IsDebris(log: string, entity: string, flag: string, c: Ctx)
  {
    Contains(log, entity) && StartsWith(log, DebrisHeader) && flag !in Flags(c)
  }

  /** The debris step: the flag is pushed onto the handler's flags array and a copy of the
      object stored, a six-minute timer whose callback holds the object is armed, and the event
      is announced. */
  function Debris(c: Ctx, flag: string, name: string): (r: Ctx)
    ensures Framed(r) && r.srv == c.srv
  {
    var id := c.srv.identifier;
    var st1 := Put(PushFlag(c.st, c.srv, flag), c.srv);
    var h := st1.heap;
    var o := if c.obj.Some? then c.obj.value else h.nextObject;
    var st2 := st1.(heap := h.(objects := h.objects[o := c.srv], nextObject := if c.obj.Some? then h.nextObject else h.nextObject + 1),
                    flagTimers := st1.flagTimers + [FlagTimer(flag, o)]);
    Ctx(Emit(st2, Some(id), EventStart(name, true)), c.srv, Some(o))
  }

  function Joins(names: seq<string>): (r: seq<Event>)
    ensures |r| == |names| && forall k :: 0 <= k < |names| ==> r[k] == PlayerJoined(names[k])
  {
    seq(|names|, k requires 0 <= k < |names| => PlayerJoined(names[k]))
  }

  function Leaves(names: seq<string>): (r: seq<Event>)
    ensures |r| == |names| && forall k :: 0 <= k < |names| ==> r[k] == PlayerLeft(names[k])
  {
    seq(|names|, k requires 0 <= k < |names| => PlayerLeft(names[k]))
  }

  /** The events of a population snapshot: joins and leaves once the first refresh is done,
      then the list update. */
  function RefreshEvents(initial: bool, players: seq<string>, change: Change): seq<Event>
  {
    (if initial then [] else Joins(change.joined) + Leaves(change.left))
      + [PlayerListUpdate(players, change.joined, change.left)]
  }

  /** A population snapshot: compared with the stored list, which it replaces; the first one
      only pushes the "init-refresh" flag onto the stored record's array. */
  function Refresh(c: Ctx, players: seq<string>): (r: Ctx)
    requires Framed(c)
    ensures Framed(r) && r.srv == c.srv && r.obj == c.obj
  {
    hide Put, EmitAll, RefreshEvents, ComparePopulation, Tag;
    var id := c.srv.identifier;
    var s := c.st.servers[id];
    var initial := "init-refresh" !in FlagsOf(c.st, s);
    var st1 := if initial then PushFlag(c.st, s, "init-refresh") else c.st;
    var st := Put(st1, s.(players := players));
    Ctx(EmitAll(st, Some(id), RefreshEvents(initial, players, ComparePopulation(s.players, players))), c.srv, c.obj)
  }

  /** Some frequency of `current` is missing from the listing. */
  predicate LosesAny(current: seq<nat>, bs: seq<Broadcast>)
  {
    exists f :: f in current && f !in Frequencies(bs)
  }

  /** An RF listing: the active frequencies are brought up to date and a copy of the handler's
      object is stored. Dropping a lost frequency (`filter`) gives the object a new array;
      without one the new frequencies are pushed onto the array it holds. Of the arrays the
      drops make only the last stays reachable, so one new array stands for them. */
  function Listen(c: Ctx, bs: seq<Broadcast>): (r: Ctx)
    ensures Framed(r) && r.obj == c.obj && r.srv.identifier == c.srv.identifier
  {
    var id := c.srv.identifier;
    var current := ActiveOf(c.st, c.srv);
    var u := RfUpdate(current, bs);
    var lost := LosesAny(current, bs);
    var h := c.st.heap;
    var srv := if lost then c.srv.(currentRfBroadcasts := h.nextList) else c.srv;
    var st1 := c.st.(heap := h.(rfLists := h.rfLists[ListRef(id, srv.currentRfBroadcasts) := u.active],
                                nextList := if lost then h.nextList + 1 else h.nextList,
                                objects := if c.obj.Some? then h.objects[c.obj.value := srv] else h.objects));
    Ctx(EmitAll(Put(st1, srv), Some(id), u.events), srv, c.obj)
  }

  /** A console answer: the first request of the server stamped with the line's timestamp
      resolves with the line, its timer is cleared and the answered entries go; a "[ SAVE ]"
      line answers nothing. */
  function Respond(st: State, id: string, date: string, log: string): (r: State)
    ensures r.(commands := st.commands, timers := st.timers, settled := st.settled) == st
  {
    match FindResponse(st.commands, id, date)
    case None => st
    case Some(k) =>
      if StartsWith(log, "[ SAVE ]") then st
      else
        var e := st.commands[k];
        SettleIn(st.(timers := Filter(st.timers, (t: CommandTimer) => Some(t.id) != e.timer),
                     commands := RemoveAnswered(st.commands, e)),
                 e.promise, Resolved(Answer(log)))
  }

  /** The `message` event, then the events the line reports. */
  function Announce(st: State, id: string, log: string, table: seq<EventInfo>): State
  {
    EmitAll(st, Some(id), [Message(log)] + DomainEvents(log, table))
  }

  /** The rest of a line: a command echo stamps the first request waiting for it and ends the
      line; otherwise the line may answer a request and is announced. */
  function Rest(st: State, id: string, date: string, log: string, table: seq<EventInfo>): (r: State)
    ensures r == st.(events := r.events, commands := r.commands, timers := r.timers, settled := r.settled)
  {
    hide DomainEvents, EchoCommand, Stamp, FindUnstamped, Respond;
    match EchoCommand(log)
    case Some(command) =>
      var st1 := Emit(st, Some(id), ExecutingCommand(command));
      (match FindUnstamped(st1.commands, command, id)
       case Some(k) => st1.(commands := Stamp(st1.commands, k, date))
       case None => Announce(Respond(st1, id, date, log), id, log, table))
    case None => Announce(Respond(st, id, date, log), id, log, table)
  }

  /** A population snapshot, if the line is one. */
  function Snapshot(c: Ctx, log: string): (r: Ctx)
    requires Framed(c)
    ensures Framed(r) && r.srv.identifier == c.srv.identifier
  {
    match SnapshotPlayers(log)
    case Some(players) => Refresh(c, players)
    case None => c
  }

  /** A console line with its timestamp `date` and its trimmed, non-empty text `log`: the two
      debris listings end the line; otherwise a population snapshot is taken in, and an RF
      listing ends the line. */
  function Handle(c: Ctx, date: string, log: string, table: seq<EventInfo>): (r: Ctx)
    requires Framed(c)
    ensures Framed(r) && r.srv.identifier == c.srv.identifier
  {
    hide IsDebris, SnapshotPlayers, Broadcasts, Debris, Snapshot, Listen, Rest;
    if IsDebris(log, "servergibs_bradley", "bradley", c) then Debris(c, "bradley", "Bradley APC Debris")
    else if IsDebris(log, "servergibs_patrolhelicopter", "heli", c) then Debris(c, "heli", "Patrol Helicopter Debris")
    else
      var c1 := Snapshot(c, log);
      var bs := Broadcasts(log);
      if bs != [] then Listen(c1, bs)
      else Ctx(Rest(c1.st, c.srv.identifier, date, log, table), c1.srv, c1.obj)
  }

  /** One console line: a line that is not a console log line, or whose text is blank, is
      skipped. */
  function Line(c: Ctx, line: string, table: seq<EventInfo>): (r: Ctx)
    requires Framed(c)
    ensures Framed(r) && r.srv.identifier == c.srv.identifier
  {
    hide ParseLogLine, Trim, Handle;
    match ParseLogLine(line)
    case None => c
    case Some(ll) =>
      var log := Trim(ll.content);
      if log == [] then c else Handle(c, ll.date, log, table)
  }

  function Lines(c: Ctx, lines: seq<string>, table: seq<EventInfo>): (r: Ctx)
    requires Framed(c)
    ensures Framed(r) && r.srv.identifier == c.srv.identifier
    decreases lines
  {
    hide *;
    if lines == [] then c else Lines(Line(c, lines[0], table), lines[1..], table)
  }

  /** The non-empty lines of the frame's console text, in order and as often as they occur;
      none when the frame carries no text. */
  function FrameLines(message: Option<string>): (r: seq<string>)
    ensures forall k :: 0 <= k < |r| ==> r[k] != [] && '\n' !in r[k]
    ensures message.None? ==> r == []
    ensures message.Some? ==> r == Filter(SplitOn(message.value, '\n'), Present)
    ensures message.Some? ==> multiset(r) == multiset(SplitOn(message.value, '\n'))[[] := 0]
  {
    match message
    case None => []
    case Some(m) => NonEmpty(SplitOn(m, '\n'))
  }

  /** A console frame: more than three lines are ignored altogether. */
  function Console(c: Ctx, message: Option<string>, table: seq<EventInfo>): Ctx
    requires Framed(c)
  {
    hide *;
    var lines := FrameLines(message);
    if |lines| > 3 then c else Lines(c, lines, table)
  }

  // ----- what one line changes -----

  /** The arrays of `b` that belong to another server than `id` are those of `a`. */
  ghost predicate SameElsewhere<V>(a: map<ListRef, V>, b: map<ListRef, V>, id: string)
  {
    forall x: ListRef :: x.owner != id ==> (x in b <==> x in a) && (x in a ==> b[x] == a[x])
  }

  /** Only arrays and objects of the server `id` changed, and new ones were made. */
  ghost predicate HeapUntouched(a: Heap, b: Heap, id: string)
  {
    && SameElsewhere(a.flagLists, b.flagLists, id) && SameElsewhere(a.rfLists, b.rfLists, id)
    && (forall o :: o in a.objects ==> o in b.objects)
    && (forall o :: o in b.objects ==> o in a.objects || a.nextObject <= o < b.nextObject)
    && (forall o :: o in a.objects && a.objects[o].identifier != id ==> b.objects[o] == a.objects[o])
    && a.nextList <= b.nextList && a.nextObject <= b.nextObject
  }

  /** `b` differs from `a` only in the record `id` and the arrays and handler objects of that
      server, in new arrays and objects, the flag timers, the pending commands and their timers
      and promises; events are only appended. */
  ghost predicate Untouched(a: State, b: State, id: string)
  {
    && b.servers.Keys == a.servers.Keys
    && (forall k :: k in a.servers && k != id ==> b.servers[k] == a.servers[k])
    && HeapUntouched(a.heap, b.heap, id)
    && |a.events| <= |b.events| && b.events[..|a.events|] == a.events
    && b.(servers := a.servers, events := a.events, flagTimers := a.flagTimers, commands := a.commands,
          timers := a.timers, settled := a.settled, heap := a.heap) == a
  }

  /** Every other server reads the same flags and frequencies after such a change. */
  lemma UntouchedArrays(a: State, b: State, id: string, rec: Server)
    requires Untouched(a, b, id) && rec.identifier != id
    ensures FlagsOf(b, rec) == FlagsOf(a, rec) && ActiveOf(b, rec) == ActiveOf(a, rec)
  {
    assert ListRef(rec.identifier, rec.flags).owner != id;
    assert ListRef(rec.identifier, rec.currentRfBroadcasts).owner != id;
  }

  /** The events `b` has past those of `a`. */
  function Added(a: State, b: State): (r: seq<Emitted>)
    ensures |a.events| <= |b.events| && b.events[..|a.events|] == a.events ==> a.events + r == b.events
  {
    if |a.events| <= |b.events| then b.events[|a.events|..] else []
  }

  lemma UntouchedTrans(a: State, b: State, c: State, id: string)
    requires Untouched(a, b, id) && Untouched(b, c, id)
    ensures Untouched(a, c, id)
  {
    assert c.events[..|b.events|][..|a.events|] == c.events[..|a.events|];
  }

  lemma UntouchedRefl(st: State, id: string)
    ensures Untouched(st, st, id)
  {
  }

  lemma PutUntouched(st: State, rec: Server)
    requires rec.identifier in st.servers
    ensures Untouched(st, Put(st, rec), rec.identifier)
  {
  }

  lemma EmitAllUntouched(st: State, server: Option<string>, evs: seq<Event>, id: string)
    ensures Untouched(st, EmitAll(st, server, evs), id)
  {
    var r := EmitAll(st, server, evs);
    assert r.events[..|st.events|] == st.events;
  }

  /** A state that differs from a valid one only in this way, and whose record `id` is stored
      under its name, is valid. */
  lemma UntouchedValid(a: State, b: State, id: string)
    requires Valid(a) && Untouched(a, b, id)
    requires id in b.servers ==> b.servers[id].identifier == id
    ensures Valid(b)
  {
  }

  // ----- debris -----

  lemma DebrisParts(c: Ctx, flag: string, name: string)
    ensures var st1 := Put(PushFlag(c.st, c.srv, flag), c.srv);
      var h := st1.heap;
      var o := if c.obj.Some? then c.obj.value else h.nextObject;
      Debris(c, flag, name)
        == Ctx(Emit(st1.(heap := h.(objects := h.objects[o := c.srv],
                                    nextObject := if c.obj.Some? then h.nextObject else h.nextObject + 1),
                         flagTimers := st1.flagTimers + [FlagTimer(flag, o)]),
                    Some(c.srv.identifier), EventStart(name, true)),
               c.srv, Some(o))
  {
  }

  lemma PushFlagUntouched(st: State, rec: Server, flag: string)
    ensures Untouched(st, PushFlag(st, rec, flag), rec.identifier)
  {
  }

  lemma EmitUntouched(st: State, server: Option<string>, e: Event, id: string)
    ensures Untouched(st, Emit(st, server, e), id)
  {
    var r := Emit(st, server, e);
    assert r.events[..|st.events|] == st.events;
  }

  /** Storing server `rec` as the handler object `o`, the one a timer already holds or a new
      one, and arming a flag timer on it. */
  lemma ArmUntouched(st: State, rec: Server, o: nat, isNew: bool, flag: string)
    requires isNew ==> o == st.heap.nextObject && o !in st.heap.objects
    requires !isNew ==> o in st.heap.objects && st.heap.objects[o].identifier == rec.identifier
    ensures var h := st.heap;
      Untouched(st, st.(heap := h.(objects := h.objects[o := rec], nextObject := if isNew then h.nextObject + 1 else h.nextObject),
                        flagTimers := st.flagTimers + [FlagTimer(flag, o)]), rec.identifier)
  {
  }

  /** Each step of a debris listing changes only what belongs to the listing's server. */
  lemma DebrisUntouched(c: Ctx, flag: string, name: string)
    requires Framed(c) && Valid(c.st)
    ensures Valid(Debris(c, flag, name).st) && Untouched(c.st, Debris(c, flag, name).st, c.srv.identifier)
  {
    assert c.obj.None? ==> c.st.heap.nextObject !in c.st.heap.objects;
    hide Untouched, Valid;
    var id := c.srv.identifier;
    var st0 := PushFlag(c.st, c.srv, flag);
    PushFlagUntouched(c.st, c.srv, flag);
    var st1 := Put(st0, c.srv);
    PutUntouched(st0, c.srv);
    var h := st1.heap;
    var o := if c.obj.Some? then c.obj.value else h.nextObject;
    var st2 := st1.(heap := h.(objects := h.objects[o := c.srv], nextObject := if c.obj.Some? then h.nextObject else h.nextObject + 1),
                    flagTimers := st1.flagTimers + [FlagTimer(flag, o)]);
    ArmUntouched(st1, c.srv, o, c.obj.None?, flag);
    var st3 := Emit(st2, Some(id), EventStart(name, true));
    EmitUntouched(st2, Some(id), EventStart(name, true), id);
    assert Debris(c, flag, name).st == st3;
    hide Debris, Emit, Put, PushFlag;
    UntouchedTrans(c.st, st0, st1, id);
    UntouchedTrans(c.st, st1, st2, id);
    UntouchedTrans(c.st, st2, st3, id);
    UntouchedValid(c.st, st3, id);
  }

  /** A debris listing pushes the flag onto the array the handler's object and the stored record
      share, stores a copy of the object, arms one timer whose callback holds the object (the
      one an earlier timer of the frame holds, else a new one) and announces exactly one event. */
  lemma DebrisEffect(c: Ctx, flag: string, name: string)
    requires Framed(c) && Valid(c.st)
    ensures var r, id := Debris(c, flag, name), c.srv.identifier;
      && Valid(r.st) && Untouched(c.st, r.st, id)
      && r.srv == c.srv && id in r.st.servers && r.st.servers[id] == c.srv
      && Flags(r) == Flags(c) + [flag]
      && r.obj.Some? && (c.obj.Some? ==> r.obj == c.obj) && (c.obj.None? ==> r.obj == Some(c.st.heap.nextObject))
      && r.st.heap.objects == c.st.heap.objects[r.obj.value := c.srv] && r.st.heap.nextList == c.st.heap.nextList
      && r.st.heap.nextObject == (if c.obj.Some? then c.st.heap.nextObject else c.st.heap.nextObject + 1)
      && r.st.flagTimers == c.st.flagTimers + [FlagTimer(flag, r.obj.value)]
      && r.st.events == c.st.events + [Emitted(Some(id), EventStart(name, true))]
      && r.st.commands == c.st.commands && r.st.timers == c.st.timers && r.st.settled == c.st.settled
  {
    hide Valid, Untouched;
    DebrisParts(c, flag, name);
    DebrisUntouched(c, flag, name);
    hide Debris;
    var r := Debris(c, flag, name);
    var st0 := PushFlag(c.st, c.srv, flag);
    assert FlagsOf(st0, c.srv) == Flags(c) + [flag];
    assert r.st.events[..|c.st.events|] == c.st.events;
    assert Flags(r) == FlagsOf(st0, c.srv);
  }

  /** Once the flag's timer fires, before any other line of the server is handled, the flag is
      off the stored record again, so the next listing is reported once more; the other flags
      stay and nothing else is set. This is the callback as written: its object still shares the
      stored record's flags array, so filtering that array is filtering the record's flags. */
  lemma DebrisExpires(c: Ctx, flag: string, name: string)
    requires Framed(c) && Valid(c.st)
    ensures var d := Debris(c, flag, name);
      var k, id := |d.st.flagTimers| - 1, c.srv.identifier;
      && d.st.flagTimers[k].obj in d.st.heap.objects
      && var f := FireFlagAsWritten(d.st, k);
      && id in f.servers && flag !in FlagsOf(f, f.servers[id])
      && (forall g :: g in FlagsOf(f, f.servers[id]) <==> g in Flags(c) && g != flag)
      && f.flagTimers == c.st.flagTimers
  {
    var d := Debris(c, flag, name);
    DebrisEffect(c, flag, name);
    hide Debris;
    var k := |d.st.flagTimers| - 1;
    FireFlagAsWrittenEffect(d.st, k);
    assert RemoveAt(d.st.flagTimers, k) == c.st.flagTimers;
  }

  /** The handler of a later frame of the same server: the stored record, no object yet. */
  function NextFrame(c: Ctx): (r: Ctx)
    requires Framed(c)
    ensures Framed(r) && r.st == c.st && r.obj.None? && r.srv == c.st.servers[c.srv.identifier]
  {
    Ctx(c.st, c.st.servers[c.srv.identifier], None)
  }

  /** A frame listing the Bradley debris, then a later frame of the same server listing the
      helicopter debris. */
  function TwoListings(c: Ctx): Ctx
  {
    Debris(NextFrame(Debris(c, "bradley", "Bradley APC Debris")), "heli", "Patrol Helicopter Debris")
  }

  /** State `st` holds the stored record of `c` unchanged, and a timer for each debris flag on
      the objects `n` and `n + 1` (the next two objects of `c`), both copies of that record and
      so sharing its flags array, which holds both flags after those of `c`. */
  ghost predicate TimersOnTwoCopies(c: Ctx, st: State)
  {
    var id, n := c.srv.identifier, c.st.heap.nextObject;
    && id in st.servers && st.servers[id] == c.srv
    && st.flagTimers == [FlagTimer("bradley", n), FlagTimer("heli", n + 1)]
    && n in st.heap.objects && st.heap.objects[n] == c.srv
    && n + 1 in st.heap.objects && st.heap.objects[n + 1] == c.srv
    && FlagsOf(st, c.srv) == Flags(c) + ["bradley", "heli"] && st.heap.nextList == c.st.heap.nextList
  }

  /** Bradley debris in one frame and helicopter debris in a later one arm two timers, whose
      callbacks hold two different objects sharing one flags array. */
  lemma TwoDebrisFrames(c: Ctx)
    requires Framed(c) && Valid(c.st) && c.obj.None? && c.st.flagTimers == []
    ensures TimersOnTwoCopies(c, TwoListings(c).st) && Valid(TwoListings(c).st)
  {
    hide Valid, Untouched, Put, Emit, FlagsOf;
    var id, n := c.srv.identifier, c.st.heap.nextObject;
    assert TwoListings(c) == Debris(NextFrame(Debris(c, "bradley", "Bradley APC Debris")), "heli", "Patrol Helicopter Debris");
    hide Debris, TwoListings;
    var d1 := Debris(c, "bradley", "Bradley APC Debris");
    DebrisEffect(c, "bradley", "Bradley APC Debris");
    var c2 := NextFrame(d1);
    DebrisEffect(c2, "heli", "Patrol Helicopter Debris");
    assert Flags(c2) == Flags(c) + ["bradley"];
  }

  /** The two callbacks as written, from any state where the timers of `TwoDebrisFrames` are
      pending on two objects equal to the stored record. */
  lemma StuckAfterTimers(st: State, srv: Server, n: nat)
    requires Valid(st) && srv.identifier in st.servers && st.servers[srv.identifier] == srv
    requires st.flagTimers == [FlagTimer("bradley", n), FlagTimer("heli", n + 1)]
    requires n in st.heap.objects && st.heap.objects[n] == srv
    requires n + 1 in st.heap.objects && st.heap.objects[n + 1] == srv
    requires srv.flags < st.heap.nextList && "bradley" in FlagsOf(st, srv)
    ensures var f1 := FireFlagAsWritten(st, 0);
      && f1.flagTimers == [FlagTimer("heli", n + 1)] && n + 1 in f1.heap.objects
      && var f2 := FireFlagAsWritten(f1, 0);
      && f2.flagTimers == [] && srv.identifier in f2.servers && "bradley" in FlagsOf(f2, f2.servers[srv.identifier])
      && forall log :: !IsDebris(log, "servergibs_bradley", "bradley", Ctx(f2, f2.servers[srv.identifier], None))
  {
    hide FireFlagAsWritten, Valid, FlagsOf;
    BradleyFires(st, srv, n);
    HeliFires(FireFlagAsWritten(st, 0), srv, n);
  }

  /** The timers as written: the second callback filters the array its own object still holds,
      which the first callback had replaced on the other object only, so the stored record ends
      with "bradley" set and no timer left to take it out. */
  lemma StuckDebrisFlag(c: Ctx)
    requires Framed(c) && Valid(c.st) && c.obj.None? && c.st.flagTimers == []
    requires c.srv.flags < c.st.heap.nextList && "bradley" !in Flags(c)
    ensures var id, n := c.srv.identifier, c.st.heap.nextObject;
      var d2 := TwoListings(c);
      && n in d2.st.heap.objects && d2.st.flagTimers[0] == FlagTimer("bradley", n)
      && var f1 := FireFlagAsWritten(d2.st, 0);
      && f1.flagTimers == [FlagTimer("heli", n + 1)] && n + 1 in f1.heap.objects
      && var f2 := FireFlagAsWritten(f1, 0);
      && f2.flagTimers == [] && id in f2.servers && "bradley" in FlagsOf(f2, f2.servers[id])
      && forall log :: !IsDebris(log, "servergibs_bradley", "bradley", Ctx(f2, f2.servers[id], None))
  {
    hide FireFlagAsWritten, IsDebris, Valid, FlagsOf;
    var id, n := c.srv.identifier, c.st.heap.nextObject;
    TwoDebrisFrames(c);
    hide TwoListings;
    var d2 := TwoListings(c);
    assert "bradley" in FlagsOf(d2.st, c.srv);
    StuckAfterTimers(d2.st, c.srv, n);
  }

  /** The two callbacks as intended, from the state `TwoDebrisFrames` describes. */
  lemma ClearedAfterTimers(st: State, srv: Server, n: nat)
    requires Valid(st) && srv.identifier in st.servers && st.servers[srv.identifier] == srv
    requires st.flagTimers == [FlagTimer("bradley", n), FlagTimer("heli", n + 1)]
    requires n in st.heap.objects && st.heap.objects[n] == srv
    requires n + 1 in st.heap.objects && st.heap.objects[n + 1] == srv
    ensures var f1 := FireFlag(st, 0);
      && f1.flagTimers == [FlagTimer("heli", n + 1)] && n + 1 in f1.heap.objects
      && var f2 := FireFlag(f1, 0);
      && f2.flagTimers == [] && srv.identifier in f2.servers
      && "bradley" !in FlagsOf(f2, f2.servers[srv.identifier]) && "heli" !in FlagsOf(f2, f2.servers[srv.identifier])
  {
    hide FireFlag, Valid, FlagsOf;
    FireFlagEffect(st, 0);
    var f1 := FireFlag(st, 0);
    assert f1.flagTimers == [FlagTimer("heli", n + 1)];
    FireFlagEffect(f1, 0);
  }

  /** The timers as intended: each callback takes its flag from the flags the record holds
      then, so after both fired neither debris flag is set. */
  lemma DebrisFlagsExpire(c: Ctx)
    requires Framed(c) && Valid(c.st) && c.obj.None? && c.st.flagTimers == []
    ensures var id, n := c.srv.identifier, c.st.heap.nextObject;
      var d2 := TwoListings(c);
      && n in d2.st.heap.objects && d2.st.flagTimers[0] == FlagTimer("bradley", n)
      && var f1 := FireFlag(d2.st, 0);
      && f1.flagTimers == [FlagTimer("heli", n + 1)] && n + 1 in f1.heap.objects
      && var f2 := FireFlag(f1, 0);
      && f2.flagTimers == [] && id in f2.servers
      && "bradley" !in FlagsOf(f2, f2.servers[id]) && "heli" !in FlagsOf(f2, f2.servers[id])
  {
    hide FireFlag, Valid, FlagsOf;
    var id, n := c.srv.identifier, c.st.heap.nextObject;
    TwoDebrisFrames(c);
    hide TwoListings;
    var d2 := TwoListings(c);
    ClearedAfterTimers(d2.st, c.srv, n);
  }

  // ----- population -----

  lemma InTag(server: Option<string>, evs: seq<Event>)
    ensures forall e :: Emitted(server, e) in Tag(server, evs) <==> e in evs
    ensures forall x :: x in Tag(server, evs) ==> x.server == server && x.event in evs
  {
    var t := Tag(server, evs);
    forall e | e in evs ensures Emitted(server, e) in t {
      var k :| 0 <= k < |evs| && evs[k] == e;
      assert t[k] == Emitted(server, e);
    }
  }

  lemma RefreshEventsFacts(initial: bool, players: seq<string>, change: Change)
    ensures var evs := RefreshEvents(initial, players, change);
      && (forall n :: PlayerJoined(n) in evs <==> !initial && n in change.joined)
      && (forall n :: PlayerLeft(n) in evs <==> !initial && n in change.left)
      && |evs| > 0 && evs[|evs| - 1] == PlayerListUpdate(players, change.joined, change.left)
      && (forall e :: e in evs ==> e.PlayerJoined? || e.PlayerLeft? || e.PlayerListUpdate?)
  {
    var j, l := Joins(change.joined), Leaves(change.left);
    forall n | n in change.joined ensures PlayerJoined(n) in j {
      var k :| 0 <= k < |change.joined| && change.joined[k] == n;
      assert j[k] == PlayerJoined(n);
    }
    forall n | n in change.left ensures PlayerLeft(n) in l {
      var k :| 0 <= k < |change.left| && change.left[k] == n;
      assert l[k] == PlayerLeft(n);
    }
  }

  /** The refresh as the steps it is made of. */
  lemma RefreshParts(c: Ctx, players: seq<string>)
    requires Framed(c)
    ensures var id := c.srv.identifier;
      var s := c.st.servers[id];
      var initial := "init-refresh" !in FlagsOf(c.st, s);
      var st1 := if initial then PushFlag(c.st, s, "init-refresh") else c.st;
      Refresh(c, players)
        == Ctx(EmitAll(Put(st1, s.(players := players)), Some(id),
                       RefreshEvents(initial, players, ComparePopulation(s.players, players))),
               c.srv, c.obj)
  {
  }

  /** A population snapshot replaces the stored player list and pushes "init-refresh" onto the
      flags array the stored record and the handler's object share, unless it is there; nothing
      else in the state changes. */
  lemma RefreshEffect(c: Ctx, players: seq<string>)
    requires Framed(c) && Valid(c.st)
    ensures var r, id := Refresh(c, players), c.srv.identifier;
      var s := c.st.servers[id];
      && Valid(r.st) && Untouched(c.st, r.st, id)
      && r.srv == c.srv && r.obj == c.obj && r.st.servers[id] == s.(players := players)
      && Flags(r) == (if "init-refresh" in Flags(c) then Flags(c) else Flags(c) + ["init-refresh"])
      && r.st.flagTimers == c.st.flagTimers && r.st.commands == c.st.commands && r.st.timers == c.st.timers
      && r.st.settled == c.st.settled
  {
    hide RefreshEvents, ComparePopulation, Tag, EmitAll, Put, Valid;
    FramedFacts(c);
    var id := c.srv.identifier;
    var s := c.st.servers[id];
    var initial := "init-refresh" !in FlagsOf(c.st, s);
    var st1 := if initial then PushFlag(c.st, s, "init-refresh") else c.st;
    var rec := s.(players := players);
    var st2 := Put(st1, rec);
    var evs := RefreshEvents(initial, players, ComparePopulation(s.players, players));
    var r := Refresh(c, players);
    RefreshParts(c, players);
    hide Refresh;
    assert Untouched(c.st, st1, id);
    PutUntouched(st1, rec);
    EmitAllUntouched(st2, Some(id), evs, id);
    UntouchedTrans(c.st, st1, st2, id);
    UntouchedTrans(c.st, st2, r.st, id);
    UntouchedValid(c.st, r.st, id);
  }

  /** Joins and leaves are announced only once the first refresh is behind: a player is reported
      joined exactly when listed now and not before, left exactly when listed before and not
      now; the list update comes last, and nothing else is announced. */
  lemma RefreshAnnounces(c: Ctx, players: seq<string>)
    requires Framed(c)
    ensures var r, id := Refresh(c, players), c.srv.identifier;
      var s, added := c.st.servers[id], Added(c.st, r.st);
      var change := ComparePopulation(s.players, players);
      && |c.st.events| <= |r.st.events| && r.st.events[..|c.st.events|] == c.st.events
      && (forall n :: Emitted(Some(id), PlayerJoined(n)) in added <==>
            "init-refresh" in Flags(c) && n in players && n !in s.players)
      && (forall n :: Emitted(Some(id), PlayerLeft(n)) in added <==>
            "init-refresh" in Flags(c) && n in s.players && n !in players)
      && |added| > 0 && added[|added| - 1] == Emitted(Some(id), PlayerListUpdate(players, change.joined, change.left))
      && (forall e :: e in added ==>
            e.server == Some(id) && (e.event.PlayerJoined? || e.event.PlayerLeft? || e.event.PlayerListUpdate?))
  {
    hide *;
    FramedFacts(c);
    var id := c.srv.identifier;
    var s := c.st.servers[id];
    var initial := "init-refresh" !in FlagsOf(c.st, s);
    var change := ComparePopulation(s.players, players);
    var evs := RefreshEvents(initial, players, change);
    var r := Refresh(c, players);
    RefreshParts(c, players);
    hide Refresh;
    assert r.st.events == c.st.events + Tag(Some(id), evs);
    assert r.st.events[..|c.st.events|] == c.st.events;
    assert Added(c.st, r.st) == Tag(Some(id), evs);
    RefreshEventsFacts(initial, players, change);
    InTag(Some(id), evs);
  }

  // ----- RF listings -----

  lemma ListenParts(c: Ctx, bs: seq<Broadcast>)
    ensures var id, current := c.srv.identifier, ActiveOf(c.st, c.srv);
      var u, lost := RfUpdate(current, bs), LosesAny(current, bs);
      var h := c.st.heap;
      var srv := if lost then c.srv.(currentRfBroadcasts := h.nextList) else c.srv;
      var st1 := c.st.(heap := h.(rfLists := h.rfLists[ListRef(id, srv.currentRfBroadcasts) := u.active],
                                  nextList := if lost then h.nextList + 1 else h.nextList,
                                  objects := if c.obj.Some? then h.objects[c.obj.value := srv] else h.objects));
      Listen(c, bs) == Ctx(EmitAll(Put(st1, srv), Some(id), u.events), srv, c.obj)
  {
  }

  /** The array step of an RF listing touches only the server's own arrays and object. */
  lemma ListenArrays(c: Ctx, bs: seq<Broadcast>)
    requires Framed(c)
    ensures var id, current := c.srv.identifier, ActiveOf(c.st, c.srv);
      var u, lost := RfUpdate(current, bs), LosesAny(current, bs);
      var h := c.st.heap;
      var srv := if lost then c.srv.(currentRfBroadcasts := h.nextList) else c.srv;
      var st1 := c.st.(heap := h.(rfLists := h.rfLists[ListRef(id, srv.currentRfBroadcasts) := u.active],
                                  nextList := if lost then h.nextList + 1 else h.nextList,
                                  objects := if c.obj.Some? then h.objects[c.obj.value := srv] else h.objects));
      && Untouched(c.st, st1, id) && ActiveOf(st1, srv) == u.active && FlagsOf(st1, srv) == Flags(c)
  {
  }

  /** An RF listing keeps the state valid and changes nothing but the server's own record,
      arrays and object. */
  lemma ListenEffect(c: Ctx, bs: seq<Broadcast>)
    requires Framed(c) && Valid(c.st)
    ensures var r, id := Listen(c, bs), c.srv.identifier;
      Valid(r.st) && Untouched(c.st, r.st, id)
  {
    hide RfUpdate, Tag, Valid, Frequencies, LosesAny, EmitAll, Put, Untouched;
    FramedFacts(c);
    var id, current := c.srv.identifier, ActiveOf(c.st, c.srv);
    var u, lost := RfUpdate(current, bs), LosesAny(current, bs);
    var h := c.st.heap;
    var srv := if lost then c.srv.(currentRfBroadcasts := h.nextList) else c.srv;
    var st1 := c.st.(heap := h.(rfLists := h.rfLists[ListRef(id, srv.currentRfBroadcasts) := u.active],
                                nextList := if lost then h.nextList + 1 else h.nextList,
                                objects := if c.obj.Some? then h.objects[c.obj.value := srv] else h.objects));
    var st2 := Put(st1, srv);
    var r := Listen(c, bs);
    ListenParts(c, bs);
    hide Listen;
    ListenArrays(c, bs);
    PutUntouched(st1, srv);
    EmitAllUntouched(st2, Some(id), u.events, id);
    UntouchedTrans(c.st, st1, st2, id);
    UntouchedTrans(c.st, st2, r.st, id);
    UntouchedValid(c.st, r.st, id);
  }

  /** After an RF listing the stored record is a copy of the handler's object, which holds
      exactly the listed frequencies: pushed onto the array it held when none was lost, in a
      new array otherwise. Its flags, the flag timers and the pending commands stay. */
  lemma ListenActive(c: Ctx, bs: seq<Broadcast>)
    ensures var r, id, current := Listen(c, bs), c.srv.identifier, ActiveOf(c.st, c.srv);
      && r.srv == c.srv.(currentRfBroadcasts := r.srv.currentRfBroadcasts) && r.st.servers[id] == r.srv && r.obj == c.obj
      && Flags(r) == Flags(c)
      && r.st.flagTimers == c.st.flagTimers && r.st.commands == c.st.commands && r.st.timers == c.st.timers
      && r.st.settled == c.st.settled
      && (!LosesAny(current, bs) ==> r.srv == c.srv && r.st.heap.nextList == c.st.heap.nextList)
      && (LosesAny(current, bs) ==>
            r.srv.currentRfBroadcasts == c.st.heap.nextList && r.st.heap.nextList == c.st.heap.nextList + 1)
      && ActiveOf(r.st, r.srv) == RfUpdate(current, bs).active
      && (forall f :: f in ActiveOf(r.st, r.srv) <==> f in Frequencies(bs))
      && (NoDup(current) ==> NoDup(ActiveOf(r.st, r.srv)))
  {
    hide RfUpdate, Tag, Frequencies, LosesAny, EmitAll;
    var id, current := c.srv.identifier, ActiveOf(c.st, c.srv);
    var u := RfUpdate(current, bs);
    var r := Listen(c, bs);
    ListenParts(c, bs);
    hide Listen;
    assert ActiveOf(r.st, r.srv) == u.active;
    assert Flags(r) == Flags(c);
    RfActiveMatchesListing(current, bs);
  }

  /** An RF listing reports lost and received frequencies and oil rig starts for the server,
      and nothing else: in particular no `message`. */
  lemma ListenAnnounces(c: Ctx, bs: seq<Broadcast>)
    ensures var r, id, current := Listen(c, bs), c.srv.identifier, ActiveOf(c.st, c.srv);
      var added := r.st.events[|c.st.events|..];
      && |c.st.events| <= |r.st.events| && r.st.events[..|c.st.events|] == c.st.events
      && added == Tag(Some(id), RfUpdate(current, bs).events)
      && (forall e :: e in added ==> e.server == Some(id) && RfEvent(e.event))
  {
    hide RfUpdate, Tag, Frequencies, LosesAny, Put;
    var id, current := c.srv.identifier, ActiveOf(c.st, c.srv);
    var u := RfUpdate(current, bs);
    var r := Listen(c, bs);
    ListenParts(c, bs);
    hide Listen;
    RfUpdateOnlyRf(current, bs);
    InTag(Some(id), u.events);
    assert r.st.events[|c.st.events|..] == Tag(Some(id), u.events);
  }

  // ----- command echoes and answers -----

  /** A console answer resolves the promise of the first request of the server stamped with the
      line's timestamp with the line's text (unless it settled before), clears that request's
      timer and removes it and every entry equal to it in command, server and timestamp; other
      promises, timers and entries stay. Without such a request, or for a "[ SAVE ]" line,
      nothing changes. */
  lemma RespondEffect(st: State, id: string, date: string, log: string)
    ensures var r, found := Respond(st, id, date, log), FindResponse(st.commands, id, date);
      && (found.None? || StartsWith(log, "[ SAVE ]") ==> r == st)
      && (found.Some? && !StartsWith(log, "[ SAVE ]") ==>
            var e := st.commands[found.value];
            && e.identifier == id && e.timestamp == Some(date)
            && (forall j :: 0 <= j < found.value ==>
                  !(st.commands[j].identifier == id && st.commands[j].timestamp == Some(date)))
            && e.promise in r.settled && (e.promise !in st.settled ==> r.settled[e.promise] == Resolved(Answer(log)))
            && (forall q :: q != e.promise ==> (q in r.settled <==> q in st.settled))
            && (forall x :: x in r.commands <==> x in st.commands && !SameRequest(x, e))
            && (forall t :: t in r.timers <==> t in st.timers && Some(t.id) != e.timer))
  {
  }

  /** A command echo stamps the first request of the server that waits for it; then no request
      of that server waits for that echo any more, and the line ends with `ExecutingCommand`. */
  predicate Stamps(cmds: seq<CommandRequest>, id: string, log: string)
  {
    EchoCommand(log).Some? && FindUnstamped(cmds, EchoCommand(log).value, id).Some?
  }

  lemma StampsEcho(cmds: seq<CommandRequest>, id: string, log: string)
    requires Stamps(cmds, id, log)
    ensures EchoCommand(log).Some?
  {
  }

  lemma EchoStamps(st: State, id: string, date: string, log: string, table: seq<EventInfo>)
    requires Stamps(st.commands, id, log)
    ensures var command := EchoCommand(log).value;
      var k, r := FindUnstamped(st.commands, command, id).value, Rest(st, id, date, log, table);
      && r.events == st.events + [Emitted(Some(id), ExecutingCommand(command))]
      && r == st.(events := r.events, commands := Stamp(st.commands, k, date))
      && st.commands[k].command == command && st.commands[k].identifier == id && st.commands[k].timestamp.None?
      && (forall j :: 0 <= j < k ==>
            !(st.commands[j].command == command && st.commands[j].identifier == id && st.commands[j].timestamp.None?))
      && |r.commands| == |st.commands| && r.commands[k] == st.commands[k].(timestamp := Some(date))
      && (forall j :: 0 <= j < |st.commands| && st.commands[j].command != command ==> r.commands[j] == st.commands[j])
      && FindUnstamped(r.commands, command, id).None?
  {
    var command := EchoCommand(log).value;
    var k := FindUnstamped(st.commands, command, id).value;
    StampEffect(st.commands, k, date);
  }

  lemma RestPartsEcho(st: State, id: string, date: string, log: string, table: seq<EventInfo>)
    requires EchoCommand(log).Some? && !Stamps(st.commands, id, log)
    ensures var st1 := Emit(st, Some(id), ExecutingCommand(EchoCommand(log).value));
      Rest(st, id, date, log, table) == Announce(Respond(st1, id, date, log), id, log, table)
  {
  }

  lemma RestPartsPlain(st: State, id: string, date: string, log: string, table: seq<EventInfo>)
    requires EchoCommand(log).None?
    ensures Rest(st, id, date, log, table) == Announce(Respond(st, id, date, log), id, log, table)
  {
  }

  lemma AnnounceParts(st: State, id: string, log: string, table: seq<EventInfo>)
    ensures Announce(st, id, log, table) == EmitAll(st, Some(id), [Message(log)] + DomainEvents(log, table))
  {
  }

  /** The answer step does not look at the events. */
  lemma RespondIgnoresEvents(st: State, evs: seq<Emitted>, id: string, date: string, log: string)
    ensures Respond(st.(events := evs), id, date, log) == Respond(st, id, date, log).(events := evs)
  {
  }

  lemma EmitOne(st: State, server: Option<string>, e: Event)
    ensures Emit(st, server, e) == st.(events := st.events + Tag(server, [e]))
  {
  }

  lemma TagAppend(server: Option<string>, a: seq<Event>, b: seq<Event>)
    ensures Tag(server, a + b) == Tag(server, a) + Tag(server, b)
  {
  }

  /** Any other line is announced: `ExecutingCommand` first if it echoes a command, then the
      `message` event and the events the line reports; the commands, timers and promises are
      those of the answer step. */
  lemma RestAnnounces(st: State, id: string, date: string, log: string, table: seq<EventInfo>)
    requires !Stamps(st.commands, id, log)
    ensures var r, a := Rest(st, id, date, log, table), Respond(st, id, date, log);
      var echo := if EchoCommand(log).Some? then [ExecutingCommand(EchoCommand(log).value)] else [];
      && r.events == st.events + Tag(Some(id), echo + [Message(log)] + DomainEvents(log, table))
      && r == a.(events := r.events)
  {
    hide *;
    var echo := if EchoCommand(log).Some? then [ExecutingCommand(EchoCommand(log).value)] else [];
    var evs := [Message(log)] + DomainEvents(log, table);
    var st1 := if EchoCommand(log).Some? then Emit(st, Some(id), ExecutingCommand(EchoCommand(log).value)) else st;
    if EchoCommand(log).Some? {
      RestPartsEcho(st, id, date, log, table);
      EmitOne(st, Some(id), ExecutingCommand(EchoCommand(log).value));
    } else {
      RestPartsPlain(st, id, date, log, table);
    }
    assert st1 == st.(events := st.events + Tag(Some(id), echo));
    RespondIgnoresEvents(st, st1.events, id, date, log);
    AnnounceParts(Respond(st1, id, date, log), id, log, table);
    TagAppend(Some(id), echo, evs);
  }

  /** Whatever the rest of a line does, it touches no record and only appends events. */
  lemma RestUntouched(st: State, id: string, date: string, log: string, table: seq<EventInfo>)
    ensures var r := Rest(st, id, date, log, table);
      && Untouched(st, r, id)
      && r == st.(events := r.events, commands := r.commands, timers := r.timers, settled := r.settled)
  {
    hide Rest, Respond, EchoCommand, DomainEvents, FindUnstamped, Stamp, Tag;
    var r := Rest(st, id, date, log, table);
    if Stamps(st.commands, id, log) {
      EchoStamps(st, id, date, log, table);
    } else {
      RestAnnounces(st, id, date, log, table);
      var a := Respond(st, id, date, log);
      assert a.(commands := st.commands, timers := st.timers, settled := st.settled) == st;
    }
    assert r.events[..|st.events|] == st.events;
  }

  // ----- population snapshots -----

  lemma SnapshotParts(c: Ctx, log: string)
    requires Framed(c)
    ensures Snapshot(c, log) == (if SnapshotPlayers(log).Some? then Refresh(c, SnapshotPlayers(log).value) else c)
  {
  }

  /** A line that is not a population snapshot leaves everything as it is; one that is replaces
      the stored player list, may add the "init-refresh" flag and announces no `message`. */
  lemma SnapshotEffect(c: Ctx, log: string)
    requires Framed(c) && Valid(c.st)
    ensures var r, id := Snapshot(c, log), c.srv.identifier;
      var added := r.st.events[|c.st.events|..];
      && Valid(r.st) && Untouched(c.st, r.st, id)
      && (SnapshotPlayers(log).None? ==> r == c)
      && (SnapshotPlayers(log).Some? ==>
            r.st.servers[id].players == SnapshotPlayers(log).value && "init-refresh" in Flags(r))
      && r.srv == c.srv && r.obj == c.obj
      && (Flags(r) == Flags(c) || Flags(r) == Flags(c) + ["init-refresh"])
      && r.st.flagTimers == c.st.flagTimers && r.st.commands == c.st.commands && r.st.timers == c.st.timers
      && r.st.settled == c.st.settled
      && (forall e :: e in added ==> !e.event.Message?)
  {
    hide *;
    SnapshotParts(c, log);
    FramedFacts(c);
    if SnapshotPlayers(log).Some? {
      RefreshEffect(c, SnapshotPlayers(log).value);
      RefreshAnnounces(c, SnapshotPlayers(log).value);
    } else {
      UntouchedRefl(c.st, c.srv.identifier);
      assert c.st.events[|c.st.events|..] == [];
    }
  }

  // ----- one line -----

  /** From `a` to `b` the handler's flags only grew, and the flag timers only had timers appended,
      each for a distinct debris flag that was off in `a` and is on in `b`. */
  predicate ArmedOnce(a: Ctx, b: Ctx)
  {
    && (forall g :: g in Flags(a) ==> g in Flags(b))
    && |a.st.flagTimers| <= |b.st.flagTimers| && b.st.flagTimers[..|a.st.flagTimers|] == a.st.flagTimers
    && (forall i :: |a.st.flagTimers| <= i < |b.st.flagTimers| ==>
          && (b.st.flagTimers[i].flag == "bradley" || b.st.flagTimers[i].flag == "heli")
          && b.st.flagTimers[i].flag !in Flags(a) && b.st.flagTimers[i].flag in Flags(b))
    && (forall i, j :: |a.st.flagTimers| <= i < j < |b.st.flagTimers| ==>
          b.st.flagTimers[i].flag != b.st.flagTimers[j].flag)
  }

  lemma ArmedOnceTrans(a: Ctx, b: Ctx, c: Ctx)
    requires ArmedOnce(a, b) && ArmedOnce(b, c)
    ensures ArmedOnce(a, c)
  {
    var na, nb := |a.st.flagTimers|, |b.st.flagTimers|;
    assert c.st.flagTimers[..nb][..na] == c.st.flagTimers[..na];
    forall i | na <= i < nb ensures c.st.flagTimers[i] == b.st.flagTimers[i] {
      assert c.st.flagTimers[..nb][i] == c.st.flagTimers[i];
    }
  }

  lemma ArmedOnceKeep(a: Ctx, b: Ctx)
    requires a.st.flagTimers == b.st.flagTimers
    requires forall g :: g in Flags(a) ==> g in Flags(b)
    ensures ArmedOnce(a, b)
  {
  }

  lemma HandleParts(c: Ctx, date: string, log: string, table: seq<EventInfo>)
    requires Framed(c)
    ensures Handle(c, date, log, table) ==
      if IsDebris(log, "servergibs_bradley", "bradley", c) then Debris(c, "bradley", "Bradley APC Debris")
      else if IsDebris(log, "servergibs_patrolhelicopter", "heli", c) then Debris(c, "heli", "Patrol Helicopter Debris")
      else
        var c1 := Snapshot(c, log);
        if Broadcasts(log) != [] then Listen(c1, Broadcasts(log))
        else Ctx(Rest(c1.st, c.srv.identifier, date, log, table), c1.srv, c1.obj)
  {
  }

  lemma DebrisAdded(c: Ctx, flag: string, name: string)
    requires Framed(c) && Valid(c.st)
    ensures Added(c.st, Debris(c, flag, name).st) == [Emitted(Some(c.srv.identifier), EventStart(name, true))]
  {
    hide Debris;
    DebrisEffect(c, flag, name);
  }

  lemma DebrisArmed(c: Ctx, flag: string, name: string)
    requires Framed(c) && Valid(c.st) && flag !in Flags(c) && (flag == "bradley" || flag == "heli")
    ensures var r := Debris(c, flag, name);
      Valid(r.st) && Untouched(c.st, r.st, c.srv.identifier) && ArmedOnce(c, r)
  {
    hide Debris;
    DebrisEffect(c, flag, name);
    var r := Debris(c, flag, name);
    assert r.st.flagTimers[..|c.st.flagTimers|] == c.st.flagTimers;
  }

  /** Every console line keeps the state valid, changes no other server's record, only appends
      events, and arms a flag timer only for a debris flag that was off, which it switches on. */
  lemma HandleEffect(c: Ctx, date: string, log: string, table: seq<EventInfo>)
    requires Framed(c) && Valid(c.st)
    ensures var r := Handle(c, date, log, table);
      Valid(r.st) && Untouched(c.st, r.st, c.srv.identifier) && ArmedOnce(c, r)
  {
    hide Handle, Debris, Snapshot, Listen, Rest, Broadcasts, SnapshotPlayers, Put, EmitAll, RfUpdate, Valid, Untouched;
    HandleParts(c, date, log, table);
    var id := c.srv.identifier;
    if IsDebris(log, "servergibs_bradley", "bradley", c) {
      DebrisArmed(c, "bradley", "Bradley APC Debris");
    } else if IsDebris(log, "servergibs_patrolhelicopter", "heli", c) {
      DebrisArmed(c, "heli", "Patrol Helicopter Debris");
    } else {
      var c1 := Snapshot(c, log);
      SnapshotEffect(c, log);
      FramedFacts(c1);
      ArmedOnceKeep(c, c1);
      var bs := Broadcasts(log);
      if bs != [] {
        var r := Listen(c1, bs);
        ListenEffect(c1, bs);
        ListenActive(c1, bs);
        ArmedOnceKeep(c1, r);
        UntouchedTrans(c.st, c1.st, r.st, id);
        ArmedOnceTrans(c, c1, r);
      } else {
        var r := Ctx(Rest(c1.st, id, date, log, table), c1.srv, c1.obj);
        RestUntouched(c1.st, id, date, log, table);
        UntouchedTrans(c.st, c1.st, r.st, id);
        UntouchedValid(c1.st, r.st, id);
        ArmedOnceKeep(c1, r);
        ArmedOnceTrans(c, c1, r);
      }
    }
  }

  lemma UntouchedEvents(a: State, b: State, id: string)
    requires Untouched(a, b, id)
    ensures |a.events| <= |b.events| && b.events[..|a.events|] == a.events
  {
  }

  lemma AddedSplit(a: State, b: State, c: State)
    requires |a.events| <= |b.events| && b.events[..|a.events|] == a.events
    requires |b.events| <= |c.events| && c.events[..|b.events|] == b.events
    ensures Added(a, c) == Added(a, b) + Added(b, c)
  {
    assert c.events[..|b.events|][..|a.events|] == c.events[..|a.events|];
  }

  /** The rest of a line announces it as a `message` unless it stamps a request. */
  lemma RestMessage(st: State, id: string, date: string, log: string, table: seq<EventInfo>)
    ensures Emitted(Some(id), Message(log)) in Added(st, Rest(st, id, date, log, table)) <==> !Stamps(st.commands, id, log)
  {
    hide *;
    var r := Rest(st, id, date, log, table);
    var m := Emitted(Some(id), Message(log));
    RestUntouched(st, id, date, log, table);
    UntouchedEvents(st, r, id);
    assert st.events + Added(st, r) == r.events;
    if Stamps(st.commands, id, log) {
      StampsEcho(st.commands, id, log);
      EchoStamps(st, id, date, log, table);
      assert Added(st, r) == [Emitted(Some(id), ExecutingCommand(EchoCommand(log).value))];
    } else {
      RestAnnounces(st, id, date, log, table);
      var echo := if EchoCommand(log).Some? then [ExecutingCommand(EchoCommand(log).value)] else [];
      var evs := echo + [Message(log)] + DomainEvents(log, table);
      assert Added(st, r) == Tag(Some(id), evs);
      assert evs[|echo|] == Message(log);
      assert Added(st, r)[|echo|] == m;
    }
  }

  /** The answer step reads only the commands, their timers and the promises. */
  lemma RespondFrame(a: State, b: State, id: string, date: string, log: string)
    requires a.commands == b.commands && a.timers == b.timers && a.settled == b.settled
    ensures var ra, rb := Respond(a, id, date, log), Respond(b, id, date, log);
      ra.commands == rb.commands && ra.timers == rb.timers && ra.settled == rb.settled
  {
  }

  lemma SnapshotQuiet(c: Ctx, log: string)
    requires Framed(c) && Valid(c.st)
    ensures var r := Snapshot(c, log).st;
      && Valid(r) && r.commands == c.st.commands
      && |c.st.events| <= |r.events| && r.events[..|c.st.events|] == c.st.events
      && forall e :: e in Added(c.st, r) ==> !e.event.Message?
  {
    hide Snapshot, Untouched;
    SnapshotEffect(c, log);
    UntouchedEvents(c.st, Snapshot(c, log).st, c.srv.identifier);
  }

  lemma ListenQuiet(c: Ctx, bs: seq<Broadcast>)
    requires Framed(c) && Valid(c.st)
    ensures var r := Listen(c, bs).st;
      && |c.st.events| <= |r.events| && r.events[..|c.st.events|] == c.st.events
      && forall e :: e in Added(c.st, r) ==> !e.event.Message?
  {
    hide Listen, Untouched;
    ListenAnnounces(c, bs);
  }

  /** A line is announced as a `message` exactly when it is neither a debris listing, nor an RF
      listing, nor the echo of a command some request of the server waits for. */
  lemma HandleMessage(c: Ctx, date: string, log: string, table: seq<EventInfo>)
    requires Framed(c) && Valid(c.st)
    ensures var r, id := Handle(c, date, log, table), c.srv.identifier;
      Emitted(Some(id), Message(log)) in Added(c.st, r.st) <==>
        && !IsDebris(log, "servergibs_bradley", "bradley", c)
        && !IsDebris(log, "servergibs_patrolhelicopter", "heli", c)
        && Broadcasts(log) == [] && !Stamps(c.st.commands, id, log)
  {
    hide *;
    HandleParts(c, date, log, table);
    var id := c.srv.identifier;
    var m := Emitted(Some(id), Message(log));
    var r := Handle(c, date, log, table);
    if IsDebris(log, "servergibs_bradley", "bradley", c) {
      DebrisAdded(c, "bradley", "Bradley APC Debris");
    } else if IsDebris(log, "servergibs_patrolhelicopter", "heli", c) {
      DebrisAdded(c, "heli", "Patrol Helicopter Debris");
    } else {
      var c1 := Snapshot(c, log);
      SnapshotQuiet(c, log);
      var bs := Broadcasts(log);
      if bs != [] {
        ListenQuiet(c1, bs);
        AddedSplit(c.st, c1.st, r.st);
      } else {
        RestUntouched(c1.st, id, date, log, table);
        UntouchedEvents(c1.st, r.st, id);
        AddedSplit(c.st, c1.st, r.st);
        RestMessage(c1.st, id, date, log, table);
      }
    }
  }

  /** How the pending commands, their timers and the promises stand in `r` after the handler of
      `c` took the line `log`. */
  ghost predicate CommandsAfter(c: Ctx, date: string, log: string, r: State)
  {
    var id, a := c.srv.identifier, Respond(c.st, c.srv.identifier, date, log);
    var listing := || IsDebris(log, "servergibs_bradley", "bradley", c)
                   || IsDebris(log, "servergibs_patrolhelicopter", "heli", c) || Broadcasts(log) != [];
    && (listing ==> r.commands == c.st.commands && r.timers == c.st.timers && r.settled == c.st.settled)
    && (!listing && Stamps(c.st.commands, id, log) ==>
          && r.commands == Stamp(c.st.commands, FindUnstamped(c.st.commands, EchoCommand(log).value, id).value, date)
          && r.timers == c.st.timers && r.settled == c.st.settled)
    && (!listing && !Stamps(c.st.commands, id, log) ==>
          r.commands == a.commands && r.timers == a.timers && r.settled == a.settled)
  }

  /** A debris or RF listing leaves the pending commands, their timers and the promises alone; any
      other line either stamps the first request waiting for its echo or is the answer step. */
  lemma HandleCommands(c: Ctx, date: string, log: string, table: seq<EventInfo>)
    requires Framed(c) && Valid(c.st)
    ensures CommandsAfter(c, date, log, Handle(c, date, log, table).st)
  {
    hide Handle, Debris, Snapshot, Listen, Rest, Broadcasts, SnapshotPlayers, Put, EmitAll, RfUpdate, Valid, Untouched,
      DomainEvents, EchoCommand, Stamps, Respond, Stamp, FindUnstamped;
    HandleParts(c, date, log, table);
    var id := c.srv.identifier;
    if IsDebris(log, "servergibs_bradley", "bradley", c) {
      DebrisEffect(c, "bradley", "Bradley APC Debris");
    } else if IsDebris(log, "servergibs_patrolhelicopter", "heli", c) {
      DebrisEffect(c, "heli", "Patrol Helicopter Debris");
    } else {
      var c1 := Snapshot(c, log);
      SnapshotEffect(c, log);
      FramedFacts(c1);
      var bs := Broadcasts(log);
      if bs != [] {
        ListenEffect(c1, bs);
        ListenActive(c1, bs);
      } else if Stamps(c.st.commands, id, log) {
        EchoStamps(c1.st, id, date, log, table);
      } else {
        RestAnnounces(c1.st, id, date, log, table);
        RespondFrame(c1.st, c.st, id, date, log);
      }
    }
  }

  lemma LineParts(c: Ctx, line: string, table: seq<EventInfo>)
    requires Framed(c)
    ensures Line(c, line, table) ==
      match ParseLogLine(line)
      case None => c
      case Some(ll) => if Trim(ll.content) == [] then c else Handle(c, ll.date, Trim(ll.content), table)
  {
  }

  /** A line that is not a console log line, or whose text is blank, changes nothing; every other
      line keeps the state valid, touches only the handler's record and arms timers only for debris
      flags it switches on. */
  lemma LineEffect(c: Ctx, line: string, table: seq<EventInfo>)
    requires Framed(c) && Valid(c.st)
    ensures var r := Line(c, line, table);
      && (ParseLogLine(line).None? || Trim(ParseLogLine(line).value.content) == [] ==> r == c)
      && Valid(r.st) && Untouched(c.st, r.st, c.srv.identifier) && ArmedOnce(c, r)
  {
    hide *;
    LineParts(c, line, table);
    match ParseLogLine(line)
    case None =>
      UntouchedRefl(c.st, c.srv.identifier);
      ArmedOnceKeep(c, c);
    case Some(ll) =>
      if Trim(ll.content) == [] {
        UntouchedRefl(c.st, c.srv.identifier);
        ArmedOnceKeep(c, c);
      } else {
        HandleEffect(c, ll.date, Trim(ll.content), table);
      }
  }

  lemma LinesParts(c: Ctx, lines: seq<string>, table: seq<EventInfo>)
    requires Framed(c)
    ensures Lines(c, lines, table) == if lines == [] then c else Lines(Line(c, lines[0], table), lines[1..], table)
  {
  }

  lemma ConsoleParts(c: Ctx, message: Option<string>, table: seq<EventInfo>)
    requires Framed(c)
    ensures Console(c, message, table) == if |FrameLines(message)| > 3 then c else Lines(c, FrameLines(message), table)
  {
  }

  /** The lines of one frame, handled in order: each debris flag is armed at most once, and only
      if it was off when the frame came in. */
  lemma {:induction false} LinesEffect(c: Ctx, lines: seq<string>, table: seq<EventInfo>)
    requires Framed(c) && Valid(c.st)
    ensures var r := Lines(c, lines, table);
      Valid(r.st) && Untouched(c.st, r.st, c.srv.identifier) && ArmedOnce(c, r)
    decreases lines
  {
    hide *;
    LinesParts(c, lines, table);
    if lines == [] {
      UntouchedRefl(c.st, c.srv.identifier);
      ArmedOnceKeep(c, c);
    } else {
      var c1 := Line(c, lines[0], table);
      var r := Lines(c1, lines[1..], table);
      LineEffect(c, lines[0], table);
      LinesEffect(c1, lines[1..], table);
      UntouchedTrans(c.st, c1.st, r.st, c.srv.identifier);
      ArmedOnceTrans(c, c1, r);
    }
  }

  /** A console frame of more than three lines changes nothing; any other keeps the state valid,
      changes no other server's record, only appends events and arms each debris flag at most once. */
  lemma ConsoleEffect(c: Ctx, message: Option<string>, table: seq<EventInfo>)
    requires Framed(c) && Valid(c.st)
    ensures var r := Console(c, message, table);
      && (|FrameLines(message)| > 3 ==> r == c)
      && Valid(r.st) && Untouched(c.st, r.st, c.srv.identifier) && ArmedOnce(c, r)
  {
    hide Lines, FrameLines, Untouched, ArmedOnce, Valid;
    if |FrameLines(message)| > 3 {
      UntouchedRefl(c.st, c.srv.identifier);
      ArmedOnceKeep(c, c);
    } else {
      LinesEffect(c, FrameLines(message), table);
    }
  }
}
