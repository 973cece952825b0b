# RCE manager — a Dafny model

This project models the core of the RCE console client. The client keeps one websocket to a game-server host,
registers Rust servers on it and subscribes to their console streams. It turns console lines into domain events,
and it sends console commands, matching each answer to its command through the log timestamps.

The model covers:

- `src/classes/RCEManager.ts`:
  - the server registry: the constructor, `addServer`'s registration step, `getServer`, `removeServer`, `clean`;
  - the service-state machine: `handleServiceState`, `markServerAsReady`, `markServerAsUnready`;
  - the command queue and pending-command list: `sendCommand`, `processQueue`, the bookkeeping of `sendCommandInternal`;
  - the connection-attempt counter and frame dispatch of `connectWebsocket` and `authenticateWebsocket`;
  - the console-line classifier `handleWebsocketMessage`, with `comparePopulation`.
- `src/classes/Helper.ts`: the kill-source lookup `getKillInformation` and `areIdsUnique` over the `killData` table.

Layout, one module per file:

- `text.dfy` (`Text`): the string operations the source borrows from JavaScript: `trim`, `split`,
  `includes`, `startsWith`, ASCII `toLowerCase`.
- `lists.dfy` (`Lists`): `filter`, `find`, `splice` and duplicate-freedom on sequences.
- `regex.dfy` (`Regex`): a small backtracking matcher for the regular-expression shapes the source uses.
  - It covers literals, case-insensitive literals, single characters, greedy and lazy runs, alternatives of
    literals, `\b` and `$`.
  - It is proved sound and complete against a declarative acceptance relation.
  - It finds the leftmost match and the capture spans, as `String.prototype.match` does.
- `kill_info.dfy` (`KillInfo`): `Helper.ts`, with the `killData` table as a constant.
- `events.dfy` (`Events`): the emitted events, the decoded websocket frames and the other plain records.
- `numbers.dfy` (`Numbers`): JavaScript's `Number` on the texts of digits and dots the item pattern captures.
- `patterns.dfy` (`Patterns`): each regular expression of the handler as a pattern, with an extractor that
  builds the event it reports.
- `population.dfy` (`Population`): `comparePopulation`.
- `rf.dfy` (`Rf`): the RF-broadcast reconciliation, as functions and as the loops of the source.
- `pending.dfy` (`Pending`): the `commands` and `queue` lists and the operations on them.
- `records.dfy` (`Records`): the manager's `State`, the registry invariant `Valid`, and the `Heap` of the handler's
  `server` objects and of the arrays they share.
- `sending.dfy` (`Sending`): `sendCommand`, `sendCommandInternal`, `processQueue` and readiness.
- `registry.dfy` (`Registry`): the constructor, `addServer`, `removeServer`, `handleServiceState`, `clean`,
  and the timers that belong to the registry.
- `handler.dfy` (`Handler`): `handleWebsocketMessage`, one step per category and their composition.
- `connection.dfy` (`Connection`): the socket's event handlers and frame dispatch.
- `manager.dfy` (`Manager`): the `RCEManager` class.
  - Its fields are updated in place by methods.
  - Each method is proved to move `Abs()` exactly as the matching function of the other modules.

Timers, HTTP replies and socket callbacks are explicit operations of the model. A reply or callback becomes an
operation taking its outcome as a parameter:

- `Sending.CompleteSend`: a `sendConsoleMessage` reply;
- `Sending.FireTimeout`: the 3-second command timer;
- `Registry.FireFlag`: a flag-expiry timer, with `Registry.FireFlagAsWritten` for the source's own callback;
- `Sending.Tick`: a polling interval;
- `Registry.SubscriptionDone`: a subscription callback;
- `Connection.Reconnect`: a reconnect timer.

Promises are numbered handles. `settled` keeps the first value each handle settles with, since later
`resolve`/`reject` calls have no effect.

The model follows the code where it departs from what its names and messages suggest:

- A "removed zone" line reports `CustomZoneAdded`.
- The timeout and failure filters drop every pending command that shares the command text or the server.
  They do not drop only the timed-out entry.
- A reconnect is scheduled after `connectionAttempt * 10` seconds. The log text announces
  `(connectionAttempt + 1) * 10` seconds.

The quirks below are reproduced, not corrected:

- A suicide line reports `PlayerSuicide` twice.
- `markServerAsReady`/`markServerAsUnready` write back a stale record.
- Echo stamping replaces every pending entry with the same command text.
- Debris, RF and stamped-echo lines return before the generic `Message` event.
- `sendCommand` for an unknown server never settles.
- A successful `addServer` returns `undefined`.

## Model

| member | source | states |
|---|---|---|
| Text.Trim | src/classes/RCEManager.ts:536 | the trimmed text neither starts nor ends with white space |
| Text.TrimIsSlice | src/classes/RCEManager.ts:536 | `trim` removes exactly a leading and a trailing run of white space |
| Text.TrimEmptyIffBlank | src/classes/RCEManager.ts:536-537 | the trimmed content is empty exactly when the content is all white space |
| Text.SplitOn | src/classes/RCEManager.ts:519-523 | `split("\n")` gives at least one part and no part holds the separator |
| Text.SplitJoin | src/classes/RCEManager.ts:519-523 | joining the parts back with the separator gives the original text |
| Lists.NonEmpty | src/classes/RCEManager.ts:523 | `filter((e) => e !== "")` keeps the non-empty parts in their order, each as often as it occurs, and drops every empty one |
| Text.IndexFrom | src/classes/RCEManager.ts:889-890 | the first occurrence of a text at or after a position, or none at all |
| Text.ContainsIffOccurs | src/classes/RCEManager.ts:764 | `includes` holds exactly when the text occurs at some position |
| Text.Before | src/classes/RCEManager.ts:765-766 | `split(sep)[0]`: the longest prefix with no occurrence of the separator |
| Text.After | src/classes/RCEManager.ts:765-766 | the text is the part before the first separator, the separator, then the rest |
| Text.SecondPart | src/classes/RCEManager.ts:765-766 | `split(sep)[1]`: the text is its first part, the separator, then a remainder whose first part is the result |
| Text.ToLower | src/classes/Helper.ts:60 | `toLowerCase` lowers every character and keeps the length |
| Text.ToLowerOfLower | src/classes/Helper.ts:60 | lowering a lower-case text changes nothing |
| Lists.Filter | src/classes/RCEManager.ts:1079-1085 | `filter` keeps exactly the elements the test accepts |
| Lists.FilterAppend | src/classes/RCEManager.ts:1079-1085 | filtering distributes over concatenation |
| Lists.FilterPartition | src/classes/RCEManager.ts:1079-1085 | an element list is split without loss by a test and its negation |
| Lists.FilterNoDup | src/classes/RCEManager.ts:663-666 | filtering a duplicate-free list keeps it duplicate-free |
| Lists.FilterFilter | src/classes/RCEManager.ts:1079-1085 | two filters in a row are one filter by the conjunction |
| Lists.FirstIndex | src/classes/RCEManager.ts:716-721 | `find`: the first index whose element passes, or none passes |
| Lists.RemoveAt | src/classes/RCEManager.ts:1154-1198 | removing one element keeps the order and the multiset of the rest |
| Regex.MatchAt | src/classes/RCEManager.ts:528-531 | an anchored match attempt records one in-bounds, ascending position per piece |
| Regex.MatchSound | src/classes/RCEManager.ts:528-531 | every match the engine finds is accepted by the declarative semantics |
| Regex.MatchComplete | src/classes/RCEManager.ts:528-531 | whenever the semantics accept from a position, the engine finds a match there |
| Regex.MatchSpans | src/classes/RCEManager.ts:528-536 | each piece of a match spans text that piece accepts, so capture groups are well defined |
| Regex.SearchLeftmost | src/classes/RCEManager.ts:528-531 | the search succeeds exactly when the pattern matches somewhere, at the leftmost start |
| Regex.Leftmost | src/classes/RCEManager.ts:528-536 | `match` succeeds exactly when the pattern matches, with its group spans |
| Regex.MatchAll | src/classes/RCEManager.ts:598 | a `/g` match lists only matches, each at or after the start, and is empty exactly when the search finds nothing |
| Regex.MatchAllSuccessive | src/classes/RCEManager.ts:598 | the `/g` list starts with the leftmost match, each next entry is the leftmost match from where the previous one ends, and none follows the last |
| Regex.Capture | src/classes/RCEManager.ts:533-536 | a capture group is the slice of the line its piece spans |
| Regex.SingleCharRun | src/classes/RCEManager.ts:528-531 | a run of single-character pieces spans consecutive characters that fit them |
| KillInfo.Find | src/classes/Helper.ts:61 | `killData.find`: a table entry with the key, or no entry has it |
| KillInfo.LookupOutcomes | src/classes/Helper.ts:51-84 | every input gets exactly one of the four outcomes: unknown, table entry, scientist, player |
| KillInfo.TableMatchWins | src/classes/Helper.ts:60-69 | a lower-cased table id gives that entry's type and name under the original spelling |
| KillInfo.NumericFallback | src/classes/Helper.ts:71-77 | an unmatched all-digit input is a Scientist NPC with the input as id |
| KillInfo.DigitsAreNumeric | src/classes/Helper.ts:71 | `Number()` accepts every non-empty all-digit text |
| KillInfo.IdsUnique | src/classes/Helper.ts:3-43 | the `killData` ids are pairwise distinct |
| KillInfo.IdsLowerCase | src/classes/Helper.ts:3-43 | every `killData` id is non-empty and lower case |
| KillInfo.EveryEntryReachable | src/classes/Helper.ts:3-69 | looking up any table id gives exactly that entry |
| KillInfo.IdSet | src/classes/Helper.ts:87-88 | the set of ids is never larger than the id list |
| KillInfo.IdSetSize | src/classes/Helper.ts:86-89 | the id set is as large as the id list exactly when the ids are distinct |
| KillInfo.AreIdsUniqueHolds | src/classes/Helper.ts:86-89 | `areIdsUnique()` is true |
| Patterns.ParseLogLine | src/classes/RCEManager.ts:527-537 | a line parses exactly when the log-line pattern matches; from the leftmost match's start the line reads the date, `:LOG:`, a colon-free tag, `: ` and the content to its end, the date being a `dd/dd/dddd dd:dd:dd` stamp |
| Patterns.LogLineGroups | src/classes/RCEManager.ts:528-536 | any log-line match reads group 1, `:LOG:`, a colon-free tag, `: ` and group 2 up to the line's end, with group 1 a timestamp and group 2 a non-empty one-line text |
| Patterns.QuotedTokens | src/classes/RCEManager.ts:598-600 | tokens exist exactly when a quoted text occurs; the `k`-th token is the quote-free one-line text between the quotes of the `k`-th successive match |
| Patterns.QuotedText | src/classes/RCEManager.ts:598-600 | a match of `"(.*?)"` is a quote, a one-line text without a quote, and a quote; removing the quotes gives that text |
| Patterns.SnapshotPlayers | src/classes/RCEManager.ts:598-601 | a population line starts with `<slot:"name">` and its players are the quoted tokens after the first |
| Patterns.Broadcasts | src/classes/RCEManager.ts:636-653 | one broadcast per successive RF match, in order, each read at its match: frequency and range are the values of the digit runs, the coordinates the three signed decimal texts; empty exactly when nothing matches |
| Patterns.ReadBroadcast | src/classes/RCEManager.ts:644-652 | the entry built from one RF match is what that match reads: the digit runs give frequency and range |
| Patterns.RfReads | src/classes/RCEManager.ts:637-652 | the groups of an RF match are the digit runs and coordinate texts the entry text is built from |
| Patterns.EchoCommand | src/classes/RCEManager.ts:703-708 | the command exists exactly when the echo pattern matches, and is the non-empty quote-free text between the quotes at the leftmost match |
| Patterns.Unavailable | src/classes/RCEManager.ts:374-385 | an error is unavailable exactly when the AioRpc pattern matches and its status group, trimmed, is `StatusCode.UNAVAILABLE`; a match with any other status is not |
| Patterns.KillEvent | src/classes/RCEManager.ts:764-777 | a kill is reported exactly for lines containing " was killed by "; victim and killer are the kill information of the trimmed first and second `split` parts |
| Patterns.VendingEvent | src/classes/RCEManager.ts:780-794 | a rename is reported exactly when the vending pattern matches; player, old and new name are the bracket-free texts the leftmost match reads in that order |
| Patterns.QuickChatEvent | src/classes/RCEManager.ts:797-817 | a quick chat is reported exactly when its pattern matches; the kind is the one its bracketed prefix names, and the player and message are the texts the leftmost match reads after it |
| Patterns.SuicideEvents | src/classes/RCEManager.ts:819-830 | a suicide line reports the same `PlayerSuicide` twice, with the player `split(" was suicide by Suicide")[0]`; any other line reports none |
| Patterns.RespawnEvent | src/classes/RCEManager.ts:833-838 | a respawn is reported exactly for "has entered the game"; the player is `split(" [")[0]`, and the platform is XBL exactly when `[xboxone]` occurs |
| Patterns.ZoneEvent | src/classes/RCEManager.ts:841-858 | a zone line is reported, as `CustomZoneAdded` for both verbs, exactly when its pattern matches; the name is the text between the brackets at the leftmost match |
| Patterns.RoleEvent | src/classes/RCEManager.ts:861-869 | a role grant is reported exactly when the role pattern matches and the line contains "Added"; the player and role are the first and the later bracketed texts of the leftmost match |
| Patterns.ItemEvent | src/classes/RCEManager.ts:872-881 | an item spawn is reported exactly when its pattern matches; player, amount and item are read at the leftmost match between word boundaries, and the quantity is `Number` of the amount |
| Numbers.DecimalNumber | src/classes/RCEManager.ts:877 | `Number` of a digits-and-dots text is NaN exactly with two dots, or with no digit at all in a non-empty text; an all-digit text is its digit value |
| Numbers.SplitValue | src/classes/RCEManager.ts:877 | a literal with one dot is its whole part plus its fraction digits over their power of ten |
| Numbers.TrailingZero | src/classes/RCEManager.ts:877 | a trailing zero in the fraction does not change the number |
| Numbers.LeadingZerosIgnored | src/classes/RCEManager.ts:877 | a leading zero does not change the number of any digit string |
| Numbers.SecondDotIsNaN | src/classes/RCEManager.ts:877 | any digits with two dots among them are NaN |
| Patterns.NoteLine | src/classes/RCEManager.ts:888-891 | a note text is the trimmed group cut before its first literal `\n`, and holds none |
| Patterns.NoteEvent | src/classes/RCEManager.ts:884-900 | a note edit is reported exactly when the note pattern matches with a non-empty new text differing from the old; it carries the trimmed player and the two cut texts |
| Patterns.NoteGroups | src/classes/RCEManager.ts:884-887 | the note groups exist exactly when the note pattern matches, and are the player, old and new text read at the leftmost match |
| Patterns.TeamCreateEvent | src/classes/RCEManager.ts:903-911 | a team creation is reported exactly when its pattern matches; the owner is the bracketed text and the id the value of the whole digit run that follows |
| Patterns.TeamJoinEvent | src/classes/RCEManager.ts:914-923 | a team join is reported exactly when its pattern matches; player, owner and id are the texts and digit value the leftmost match reads |
| Patterns.TeamLeaveEvent | src/classes/RCEManager.ts:926-936 | a team leave is reported exactly when its pattern matches; player, owner and id are the texts and digit value the leftmost match reads |
| Patterns.KitSpawnEvent | src/classes/RCEManager.ts:939-945 | a kit spawn is reported exactly when its pattern matches; the player is the shortest text after "SERVER giving " followed by " kit " and a word, the kit the whole word after it |
| Patterns.KitSpawnText | src/classes/RCEManager.ts:939-945 | a kit spawn match reads "SERVER giving ", the player, " kit " and a whole word, with no earlier " kit " and word inside the player |
| Patterns.KitGiveEvent | src/classes/RCEManager.ts:948-957 | a kit gift is reported exactly when its pattern matches; admin, player and kit are the texts the leftmost match reads in that order |
| Patterns.SpecialStartEvent | src/classes/RCEManager.ts:960-970 | a special event start is reported exactly when its pattern matches; the event is the whole word after "Setting event as :" |
| Patterns.TableEvents | src/classes/RCEManager.ts:978-988 | `[event]` lines report only event starts, at most one per table entry |
| Patterns.TableEventsMatch | src/classes/RCEManager.ts:978-988 | every reported start comes from a table entry whose key the line contains, and every such entry is reported |
| Patterns.GameEventEvents | src/classes/RCEManager.ts:960-988 | `SpecialEventEnd` exactly for lines starting "Event set as: none"; event starts only for `[event]` lines, for every table entry whose key they contain, and no suicide |
| Patterns.SuicideReportedTwice | src/classes/RCEManager.ts:764-988 | of all domain events of a line, exactly two are suicides when it contains "was suicide by Suicide", otherwise none |
| Population.ComparePopulation | src/classes/RCEManager.ts:1426-1437 | joined are exactly the new names not in the old list, left the old names not in the new list |
| Population.JoinedInSnapshotOrder | src/classes/RCEManager.ts:1433 | joined names come in the order of the new list |
| Population.LeftInStoredOrder | src/classes/RCEManager.ts:1434 | names that left come in the order of the old list |
| Population.JoinedLeftDisjoint | src/classes/RCEManager.ts:1433-1434 | no name both joins and leaves; an unchanged list gives no change |
| Population.ChangeReconciles | src/classes/RCEManager.ts:1426-1437 | the old names minus those that left, plus those that joined, are the new names |
| Population.JoinedNoDup | src/classes/RCEManager.ts:1433 | a duplicate-free new list gives duplicate-free joins |
| Rf.OilRig | src/classes/RCEManager.ts:674-687 | 4765 starts "Small Oil Rig", 4768 "Oil Rig", any other frequency nothing |
| Rf.DropLost | src/classes/RCEManager.ts:656-667 | the loop over the active frequencies computes the lost phase |
| Rf.AddReceived | src/classes/RCEManager.ts:669-693 | the loop over the broadcasts computes the receive phase |
| Rf.UpdateRf | src/classes/RCEManager.ts:636-700 | the two loops together compute the RF update |
| Rf.LostPhaseEffect | src/classes/RCEManager.ts:656-667 | the lost phase drops exactly the frequencies not listed and reports each of them as lost |
| Rf.ReceiveAppends | src/classes/RCEManager.ts:669-693 | the receive phase appends the new frequencies and reports each as received |
| Rf.NewFrequenciesMembers | src/classes/RCEManager.ts:669-672 | the new frequencies are the listed ones not yet active, without duplicates |
| Rf.RfActiveMatchesListing | src/classes/RCEManager.ts:636-700 | afterwards the active frequencies are exactly the listed ones |
| Rf.RfLostOnce | src/classes/RCEManager.ts:656-667 | each formerly active frequency no longer listed is lost exactly once, and no other |
| Rf.RfReceivedOnce | src/classes/RCEManager.ts:669-693 | each newly listed frequency is received exactly once, even when listed twice |
| Rf.RfOilRigs | src/classes/RCEManager.ts:674-687 | there are as many oil-rig starts as receptions of 4765 and 4768 |
| Rf.RfUpdateOnlyRf | src/classes/RCEManager.ts:636-700 | an RF listing reports only frequency and oil-rig events |
| Pending.Settle | src/classes/RCEManager.ts:1180 | a promise keeps its first settlement; other promises are unchanged |
| Pending.FindUnstamped | src/classes/RCEManager.ts:716-721 | the first pending entry for this command and server with no timestamp, or none |
| Pending.StampEffect | src/classes/RCEManager.ts:722-728 | stamping sets the timestamp and replaces every entry with the same command text by the stamped one |
| Pending.FindResponse | src/classes/RCEManager.ts:737-741 | the first pending entry for this server with this line's timestamp, or none |
| Pending.RemoveAnswered | src/classes/RCEManager.ts:750-757 | exactly the entries with the answered command, server and timestamp go |
| Pending.RemoveAnsweredKeepsOthers | src/classes/RCEManager.ts:750-757 | removal works entry by entry and leaves unrelated entries in place |
| Pending.DropEither | src/classes/RCEManager.ts:1175-1179 | the timeout/failure filter keeps only entries differing in both command and server |
| Pending.DropEitherDropsShared | src/classes/RCEManager.ts:1185-1196 | every entry sharing the command or the server is dropped, and nothing is lost otherwise |
| Pending.QueueSplit | src/classes/RCEManager.ts:1079-1085 | a server's queued commands and everyone else's make up the queue |
| Records.StateOrEmpty | src/classes/RCEManager.ts:1320 | `opts.state \|\| []`: an absent or empty option becomes the empty list |
| Records.Put | src/classes/RCEManager.ts:1314 | `servers.set`: the record is stored and a new name goes to the end of the insertion order |
| Records.PutValid | src/classes/RCEManager.ts:1314 | storing a record keeps the registry consistent |
| Sending.SendCommandQueueing | src/classes/RCEManager.ts:1242-1270 | for a server that is not ready, exactly one entry is appended to the queue; for a ready one the queue is unchanged; an unknown server is reported and never settles |
| Sending.SendInternalKeeps | src/classes/RCEManager.ts:1099-1143 | sending leaves the registry and the queue alone |
| Sending.SendAllAppend | src/classes/RCEManager.ts:1087-1094 | sending two lists of queued commands is sending their concatenation |
| Sending.DrainEffect | src/classes/RCEManager.ts:1076-1097 | draining in insertion order sends every due command in order and keeps the rest waiting |
| Sending.DispatchedCount | src/classes/RCEManager.ts:1076-1097 | the dispatched commands are exactly the queued commands of ready servers |
| Sending.ProcessQueueEffect | src/classes/RCEManager.ts:1076-1097 | `processQueue` removes exactly the entries of ready servers, sends them, and keeps the rest in order |
| Sending.MarkReadyDrains | src/classes/RCEManager.ts:1066-1074 | `markServerAsReady` stores the record as ready and no command for it stays queued |
| Sending.MarkUnreadyKeepsQueue | src/classes/RCEManager.ts:1057-1064 | `markServerAsUnready` stores the record as not ready and leaves the queue alone |
| Sending.CompleteAwaitedSend | src/classes/RCEManager.ts:1154-1198 | a reply arms the 3-second timer for the entry; a failed reply is reported; a throw drops every entry sharing command or server and rejects |
| Sending.CompleteFireAndForget | src/classes/RCEManager.ts:1200-1226 | without a response the promise settles with `undefined` on success and `null` otherwise |
| Sending.TimeoutClearsShared | src/classes/RCEManager.ts:1174-1181 | the timeout drops every entry sharing command or server and resolves `undefined` |
| Registry.ConstructEffect | src/classes/RCEManager.ts:67-94 | one not-added, not-ready record per name, the last option for a name winning; nothing else is set up |
| Registry.PutAllDomain | src/classes/RCEManager.ts:67-94 | the constructor's names are exactly the identifiers of the options |
| Registry.PutAllLast | src/classes/RCEManager.ts:67-94 | the last option for a name decides its record |
| Registry.PollIntervals | src/classes/RCEManager.ts:1322-1351 | an interval for each enabled feed, with its command and server |
| Registry.ArmEffect | src/classes/RCEManager.ts:1322-1351 | new intervals get fresh handles and existing ones are kept |
| Registry.RegisterRecord | src/classes/RCEManager.ts:1313-1362 | registration stores the added, not-ready record and its request entry, and touches no other record |
| Registry.RegisterIntervals | src/classes/RCEManager.ts:1322-1351 | registration arms exactly the record's intervals under fresh handles |
| Registry.AddServerOutcome | src/classes/RCEManager.ts:1284-1424 | `false` exactly without a server id or state, or with a suspended server; registration only with an open socket; otherwise a retry is scheduled |
| Registry.Unadded | src/classes/RCEManager.ts:294-296 | the options of exactly the records not added |
| Manager.CollectUnadded | src/classes/RCEManager.ts:294-296 | the loop over the names collects the options of exactly the records not added, in insertion order |
| Registry.SubscriptionDoneEffect | src/classes/RCEManager.ts:1381-1417 | a failed subscription is reported; a running server becomes ready and its queue drains |
| Registry.GetServer | src/classes/RCEManager.ts:1448-1450 | the record stored under the name, or nothing when the name is unknown |
| Registry.GetServerAfter | src/classes/RCEManager.ts:1448-1473 | a stored record is found under its name, a removed name finds nothing, other names are unaffected |
| Registry.RemoveServerEffect | src/classes/RCEManager.ts:1462-1473 | the name and its intervals go, every other record and interval stays |
| Registry.ReadinessEffect | src/classes/RCEManager.ts:500-506 | RUNNING while not ready marks ready and drains; STOPPED while ready marks unready; otherwise nothing |
| Registry.ServiceStateEffect | src/classes/RCEManager.ts:489-514 | an unchanged state does nothing; a change is reported exactly once, and SUSPENDED removes the server |
| Registry.CleanEffect | src/classes/RCEManager.ts:253-276 | every record is not added, not ready, without players or resolved id; requests, commands and queue are empty; the names are kept |
| Registry.FireFlagEffect | src/classes/RCEManager.ts:552-561 | as intended, the timer takes its flag from the flags the record holds now and keeps every other one, and stores a copy of its object |
| Registry.FireFlagAsWrittenEffect | src/classes/RCEManager.ts:555-560 | as written, the timer filters the flags array its own object holds, gives that object the new array and stores a copy of it |
| Registry.ExpireEffect | src/classes/RCEManager.ts:556-560 | after a timer callback the stored record is a copy of the callback object holding the new flags; the timer goes and every other record stays |
| Handler.RefreshEventsFacts | src/classes/RCEManager.ts:604-630 | joins and leaves are reported only after the first snapshot, and the list update is always last |
| Handler.RefreshEffect | src/classes/RCEManager.ts:598-633 | the stored players become the snapshot and `init-refresh` is set once, never duplicated |
| Handler.RefreshAnnounces | src/classes/RCEManager.ts:598-633 | a name is reported joined or left exactly when it changed and the server was refreshed before |
| Handler.ListenEffect | src/classes/RCEManager.ts:636-700 | an RF listing keeps the registry valid and changes nothing outside its own server's record, arrays and object |
| Handler.ListenActive | src/classes/RCEManager.ts:636-700 | the stored RF frequencies become exactly the listed ones, pushed onto the old array when none was lost and in a new array otherwise; flags and pending commands stay |
| Handler.ListenAnnounces | src/classes/RCEManager.ts:636-700 | the events appended are the lost, received and oil-rig events of the update, all for this server and all RF events; no `Message` |
| Handler.DebrisEffect | src/classes/RCEManager.ts:544-595 | a debris line sets its flag, arms one expiry timer and reports one special event start |
| Handler.DebrisExpires | src/classes/RCEManager.ts:552-561 | with the callback as written, firing the timer before the server's next line leaves exactly the other flags the record held |
| Handler.TwoDebrisFrames | src/classes/RCEManager.ts:544-588 | Bradley debris in one frame and heli debris in the next leave two timers whose objects both equal the stored record, which holds both flags |
| Handler.StuckAfterTimers | src/classes/RCEManager.ts:555-560 | as written, after both timers fire no timer is left, "bradley" is still set, and no later Bradley debris line is reported |
| Handler.StuckDebrisFlag | src/classes/RCEManager.ts:544-588 | as written, Bradley then heli debris and both timers leave "bradley" set for good |
| Handler.ClearedAfterTimers | src/classes/RCEManager.ts:555-560 | as intended, after both timers fire neither debris flag is set |
| Handler.DebrisFlagsExpire | src/classes/RCEManager.ts:544-588 | as intended, Bradley then heli debris and both timers leave neither flag set |
| Handler.RespondEffect | src/classes/RCEManager.ts:735-758 | an answer resolves the first entry of the server stamped with the line's timestamp (no earlier entry matches) and removes the answered entries; a `[ SAVE ]` line answers nothing |
| Handler.EchoStamps | src/classes/RCEManager.ts:703-733 | a stamped echo reports `ExecutingCommand` and stamps the first unstamped entry for the command and server (no earlier entry matches), and nothing more |
| Handler.RestAnnounces | src/classes/RCEManager.ts:703-988 | an unstamped line reports the echo, the `Message`, then the domain events in source order |
| Handler.SnapshotEffect | src/classes/RCEManager.ts:598-633 | a population line changes only its server's players and flags and reports no `Message` |
| Handler.HandleEffect | src/classes/RCEManager.ts:544-988 | one line keeps the registry valid, touches only its server and arms timers only for absent debris flags |
| Handler.HandleMessage | src/classes/RCEManager.ts:544-760 | `Message` is reported exactly for lines that are not debris, not RF listings and not stamped echoes |
| Handler.HandleCommands | src/classes/RCEManager.ts:703-758 | listings leave the pending commands alone; an echo stamps; any other line may be an answer |
| Handler.LineEffect | src/classes/RCEManager.ts:527-537 | a line without the log shape, or with blank content, changes nothing |
| Handler.FrameLines | src/classes/RCEManager.ts:519-523 | the frame's lines are the non-empty pieces of its text split at line breaks, in order and with their multiplicity; none without text |
| Handler.ConsoleEffect | src/classes/RCEManager.ts:516-990 | a frame of more than three lines changes nothing; any frame keeps the registry valid |
| Connection.AttemptCounter | src/classes/RCEManager.ts:278-355 | each connect adds one attempt and `connection_ack` resets the count to zero |
| Connection.ErrorPolicy | src/classes/RCEManager.ts:299-316 | an error cleans up and schedules a reconnect after `attempt * 10` s exactly when fewer than 5 attempts were made |
| Connection.ClosePolicy | src/classes/RCEManager.ts:318-338 | close code 1000 never reconnects; any other code behaves like an error |
| Connection.RetriesCapped | src/classes/RCEManager.ts:278-338 | repeated failures never raise the attempt count past 5 |
| Connection.OpenEffect | src/classes/RCEManager.ts:290-297 | "open" authenticates, then schedules `addServer` for every record not added |
| Connection.ReceiveControl | src/classes/RCEManager.ts:343-355 | keep-alive frames change nothing; error and unparsable frames are reported |
| Connection.ReceiveUnrouted | src/classes/RCEManager.ts:357-372 | a data frame without a request or a server is reported and changes nothing else |
| Connection.PayloadErrorsEffect | src/classes/RCEManager.ts:374-396 | the first error is reported; an unavailable server also cleans up and reconnects in 10 s |
| Connection.RoutedServiceState | src/classes/RCEManager.ts:398-402 | a service-state frame reports one change exactly when the state changed |
| Connection.RoutedValid | src/classes/RCEManager.ts:374-402 | a routed data frame keeps the registry consistent; an empty frame changes nothing |
| Connection.ReceiveValid | src/classes/RCEManager.ts:340-407 | every frame keeps the registry consistent |
| Manager.ResetServers | src/classes/RCEManager.ts:256-265 | the loop resets every record, in insertion order |
| Manager.StopIntervals | src/classes/RCEManager.ts:256-260 | the loop stops exactly the intervals some record owns |
| Manager.RCEManager.constructor | src/classes/RCEManager.ts:67-94 | the fields hold the constructed registry, which is consistent |
| Manager.RCEManager.Clean | src/classes/RCEManager.ts:253-276 | `clean` updates the fields as the cleanup function does and keeps them consistent |
| Manager.RCEManager.SendCommand | src/classes/RCEManager.ts:1242-1270 | the fields and the returned handle are what `sendCommand` produces |
| Manager.RCEManager.ProcessQueue | src/classes/RCEManager.ts:1076-1097 | the loop over the servers drains the queue as `processQueue` does |
| Manager.RCEManager.MarkReady | src/classes/RCEManager.ts:1066-1074 | the fields change as `markServerAsReady` does |
| Manager.RCEManager.MarkUnready | src/classes/RCEManager.ts:1057-1064 | the fields change as `markServerAsUnready` does |
| Manager.RCEManager.RemoveServer | src/classes/RCEManager.ts:1462-1473 | the fields change as `removeServer` does |
| Manager.RCEManager.HandleServiceState | src/classes/RCEManager.ts:489-514 | the fields change as `handleServiceState` does |
| Manager.RCEManager.OnError | src/classes/RCEManager.ts:299-316 | the error handler moves the fields as the error policy says and keeps them consistent |
| Manager.RCEManager.OnClose | src/classes/RCEManager.ts:318-338 | the close handler moves the fields as the close policy says and keeps them consistent |
| Manager.RCEManager.OnOpen | src/classes/RCEManager.ts:290-297 | the open handler authenticates and schedules every record not added |
| Manager.RCEManager.Authenticate | src/classes/RCEManager.ts:410-440 | authentication reports a missing token or socket, or reconnects, keeping the fields consistent |
| Manager.RCEManager.HandleConsole | src/classes/RCEManager.ts:516-990 | the per-line loop applies each line in turn, as the console function does |
| Manager.RCEManager.Receive | src/classes/RCEManager.ts:340-407 | the message handler moves the fields as frame dispatch does and keeps the registry consistent |

## Left out

- Login, token refresh and `authenticate` are HTTP, HTML scraping and OAuth. The model keeps only whether an
  access token is present.
- `resolveServerId`, `fetchServiceState` and the `sendConsoleMessage` request are HTTP calls. Their outcomes are
  parameters of the operations that consume them.
- The `tokenRefreshing` sleep-and-retry loops are timing behaviour and are not modelled.
- The websocket transport, `JSON.parse` and the messages the client sends are not modelled. Frames arrive already
  decoded, and a frame that fails to decode is the `Unparsable` frame. An exception thrown while a decoded frame is
  handled is not modelled.
- The keep-alive interval, `socket.close(1000)` and `clearInterval(kaInterval)` are not modelled. `clean` only
  forgets the socket.
- `parseFloat` of RF coordinates is floating point. Coordinates are carried as uninterpreted text.
- The constants `EVENTS`, `QuickChat` and `RCEEvent` from `../constants` are not part of this model. The `EVENTS`
  table is a parameter of the `[event]` matcher, and quick-chat texts are reported as written.
- Logging, including `logError`, is an appended `Error` event. Debug and info output is not modelled.
- `toLowerCase` is ASCII lower-casing; letters outside ASCII are kept as they are.
- Registry.FireFlag: it is the corrected timer described under "## Findings". The source's own behaviour is
  `Registry.FireFlagAsWritten`. Arrays are handles into the `Heap` maps: a `push` writes through the handle, and a
  `filter` stores a new array under a new handle.
- Manager.RCEManager.HandleConsole: each step applies the `Line` function to the state. The handler's `server`
  object and its arrays are values and handles carried from line to line, not shared JavaScript objects.
- Manager.RCEManager.OnOpen: it states the new fields but not the `Valid()` invariant, which the other handlers keep.
- Registry.SubscriptionDone: a subscription callback that reads a removed server (`getServer` returning
  `undefined`) would throw in the source. The model skips marking it ready in that case.
- A `payload.errors[0]` without a `message` field is not modelled. Errors are texts.
- `getServers`, `init` and `close` are thin wrappers over the fields or over I/O, and are not modelled.
- The `Runtime` record of `RCEManager` groups the timers, promises and events, which live in the JavaScript runtime
  rather than in the object's own fields.
- Text.DigitsValue: the value of a digit run is an exact natural number. The source reads the RF frequency and
  range with `parseInt` and the team ids with `Number`, which give doubles: a run whose value passes 2^53 is
  rounded there, so two long runs the source takes for the same frequency stay distinct in the model.
- Numbers.DecimalNumber: values are exact rationals; the rounding of `Number` to a double is not modelled. Signs,
  exponents and white space never reach it, because the `[\d.]+` group cannot capture them.
- Patterns.Unavailable: it does not state where the greedy status group ends. The group reaches the last
  `details =` of the line, and the contract only names a status text read at the leftmost match.
- Patterns.ItemEvent: it does not state which of several splits of the text into player, amount and item the
  backtracking takes when the groups' classes allow more than one.
- Patterns.KitGiveEvent: it does not state which of several splits of the text into admin, player and kit the
  backtracking takes when the groups' classes allow more than one.
- Patterns.RoleEvent: it states that the player and the role are bracketed texts of the leftmost match, in that
  order. It does not state which brackets of the optional `:[...]` and `to Group` parts they are.
- Patterns.NoteGroups: it does not state that the lazy groups take the shortest texts; it states the texts the
  leftmost match reads.

## Findings

| source | as written | input that shows it | evidently intended | confidence | as-written member | corrected member |
|---|---|---|---|---|---|---|
| src/classes/RCEManager.ts:555-587 | each debris timer filters the `flags` array of the `server` object it captured and stores a copy of that object | Bradley debris in one frame, heli debris in the next frame, then both six-minute timers fire | each timer removes its flag from the flags the server's record holds when it fires, so both flags are cleared | not executed | Handler.StuckDebrisFlag | Handler.DebrisFlagsExpire |
