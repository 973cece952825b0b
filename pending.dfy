/**
 * The two command lists of the manager (src/classes/RCEManager.ts): `commands`,
 * the requests that wait for their console answer, and `queue`, the commands that
 * wait for their server to become ready. Promises are named by number; `settled`
 * records how each one settled.
 */
module Pending {
  import opened Text
  import opened Lists

  /** What a `sendCommand` promise resolves to: the console answer, `undefined` or `null`. */
  datatype Reply = Answer(text: string) | Undefined | Null

  datatype Settlement = Resolved(reply: Reply) | Rejected

  /** An entry of `commands`: the command, its server, the console timestamp of its echo once
      seen, its promise and the handle of its three-second timer once armed. */
  datatype CommandRequest =
    CommandRequest(identifier: string, command: string, timestamp: Option<string>, promise: nat, timer: Option<nat>)

  /** An entry of `queue`. */
  datatype QueuedCommand = QueuedCommand(identifier: string, command: string, response: bool, promise: nat)

  /** A promise settles once: a later `resolve` or `reject` leaves it as it is. */
  function Settle(settled: map<nat, Settlement>, p: nat, v: Settlement): (r: map<nat, Settlement>)
    ensures p in r && r[p] == (if p in settled then settled[p] else v)
    ensures forall q :: q != p ==> (q in r <==> q in settled) && (q in settled ==> r[q] == settled[q])
  {
    if p in settled then settled else settled[p := v]
  }

  /** The request an echo of `command` on server `id` stamps: the first one not yet stamped. */
  function FindUnstamped(cmds: seq<CommandRequest>, command: string, id: string): (r: Option<nat>)
    ensures r.Some? ==> r.value < |cmds| && cmds[r.value].command == command && cmds[r.value].identifier == id
                        && cmds[r.value].timestamp.None?
    ensures r.Some? ==> forall j :: 0 <= j < r.value ==>
                          !(cmds[j].command == command && cmds[j].identifier == id && cmds[j].timestamp.None?)
    ensures r.None? ==> forall e :: e in cmds && e.command == command && e.identifier == id ==> e.timestamp.Some?
  {
    FirstIndex(cmds, (e: CommandRequest) => e.command == command && e.identifier == id && e.timestamp.None?)
  }

  /** Stamping: entry `k` gets the echo's timestamp, and every entry with the same command text,
      on any server, is replaced by that stamped entry. */
  function Stamp(cmds: seq<CommandRequest>, k: nat, date: string): (r: seq<CommandRequest>)
    requires k < |cmds|
    ensures |r| == |cmds|
  {
    var stamped := cmds[k].(timestamp := Some(date));
    seq(|cmds|, j requires 0 <= j < |cmds| => if cmds[j].command == cmds[k].command then stamped else cmds[j])
  }

  /** After stamping, no entry with that command waits for its echo any more, entries with other
      commands are untouched, and the stamped entry keeps its promise and server. */
  lemma StampEffect(cmds: seq<CommandRequest>, k: nat, date: string)
    requires k < |cmds|
    ensures var r := Stamp(cmds, k, date);
      && (forall e :: e in r && e.command == cmds[k].command ==> e.timestamp == Some(date) && e.promise == cmds[k].promise)
      && (forall j :: 0 <= j < |cmds| && cmds[j].command != cmds[k].command ==> r[j] == cmds[j])
      && r[k] == cmds[k].(timestamp := Some(date))
      && FindUnstamped(r, cmds[k].command, cmds[k].identifier).None?
  {
  }

  /** The request a console line with timestamp `date` answers: the first one of server `id`
      stamped with that timestamp. */
  function FindResponse(cmds: seq<CommandRequest>, id: string, date: string): (r: Option<nat>)
    ensures r.Some? ==> r.value < |cmds| && cmds[r.value].identifier == id && cmds[r.value].timestamp == Some(date)
    ensures r.Some? ==> forall j :: 0 <= j < r.value ==> !(cmds[j].identifier == id && cmds[j].timestamp == Some(date))
    ensures r.None? ==> forall e :: e in cmds && e.identifier == id ==> e.timestamp != Some(date)
  {
    FirstIndex(cmds, (e: CommandRequest) => e.identifier == id && e.timestamp == Some(date))
  }

  predicate SameRequest(a: CommandRequest, b: CommandRequest)
  {
    a.command == b.command && a.identifier == b.identifier && a.timestamp == b.timestamp
  }

  /** Removal after an answer: the entries with the same command, server and timestamp go. */
  function RemoveAnswered(cmds: seq<CommandRequest>, e: CommandRequest): (r: seq<CommandRequest>)
    ensures forall x :: x in r <==> x in cmds && !SameRequest(x, e)
  {
    Filter(cmds, (x: CommandRequest) => !SameRequest(x, e))
  }

  /** The answered entries are removed and every other entry stays, in its order. */
  lemma RemoveAnsweredKeepsOthers(cmds: seq<CommandRequest>, e: CommandRequest, more: seq<CommandRequest>)
    ensures RemoveAnswered(cmds + more, e) == RemoveAnswered(cmds, e) + RemoveAnswered(more, e)
    ensures (forall x :: x in cmds ==> !SameRequest(x, e)) ==> RemoveAnswered(cmds, e) == cmds
  {
    FilterAppend(cmds, more, (x: CommandRequest) => !SameRequest(x, e));
    if forall x :: x in cmds ==> !SameRequest(x, e) {
      FilterKeepsAll(cmds, (x: CommandRequest) => !SameRequest(x, e));
    }
  }

  /** The filter of the timeout and of a failed send: it keeps only the entries that differ from
      the command in both the command text and the server. */
  function DropEither(cmds: seq<CommandRequest>, command: string, id: string): (r: seq<CommandRequest>)
    ensures forall x :: x in r <==> x in cmds && x.command != command && x.identifier != id
  {
    Filter(cmds, (x: CommandRequest) => x.command != command && x.identifier != id)
  }

  /** The entries that share the command text or the server. */
  function Shared(cmds: seq<CommandRequest>, command: string, id: string): seq<CommandRequest>
  {
    Filter(cmds, (x: CommandRequest) => x.command == command || x.identifier == id)
  }

  /** The filter drops every entry of the same server, whatever its command, and every entry with
      the same command text, whatever its server. */
  lemma DropEitherDropsShared(cmds: seq<CommandRequest>, command: string, id: string)
    ensures forall x :: x in cmds && (x.command == command || x.identifier == id) ==> x !in DropEither(cmds, command, id)
    ensures multiset(DropEither(cmds, command, id)) + multiset(Shared(cmds, command, id)) == multiset(cmds)
  {
    FilterPartition(cmds, (x: CommandRequest) => x.command != command && x.identifier != id,
                    (x: CommandRequest) => x.command == command || x.identifier == id);
  }

  /** The queued commands of server `id`, in queue order. */
  function QueuedFor(q: seq<QueuedCommand>, id: string): (r: seq<QueuedCommand>)
    ensures forall x :: x in r <==> x in q && x.identifier == id
  {
    Filter(q, (x: QueuedCommand) => x.identifier == id)
  }

  /** The queue once the commands of server `id` are taken out. */
  function QueuedElsewhere(q: seq<QueuedCommand>, id: string): (r: seq<QueuedCommand>)
    ensures forall x :: x in r <==> x in q && x.identifier != id
  {
    Filter(q, (x: QueuedCommand) => x.identifier != id)
  }

  /** Taking a server's commands out of the queue loses and duplicates nothing. */
  lemma QueueSplit(q: seq<QueuedCommand>, id: string)
    ensures multiset(QueuedFor(q, id)) + multiset(QueuedElsewhere(q, id)) == multiset(q)
  {
    FilterPartition(q, (x: QueuedCommand) => x.identifier == id, (x: QueuedCommand) => x.identifier != id);
  }
}
