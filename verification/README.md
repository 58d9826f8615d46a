# Verification of the MQTT broker

This project models the parts of the broker where its guarantees come from several pieces of
code working together, and proves those guarantees for all inputs and all runs:

- **Outbound QoS flow control.** A client's inflight map, its send window and the packet id
  cursor, shared by concurrent publishers. `InflightWindow` and `InflightStore` hold the window
  and its mutable store, `FlowControl` the step protocol with its laws and their exact
  conditions, `ClientSide` what the client has been handed and not answered, `HandoffRace` and
  `LateAnswers` kinds of interleaving that break the laws, `Drain` the self-stabilising drain,
  `Handlers` every broker operation with arbitrary client behaviour, and `Broker` the
  operations as methods.
- **The topic index.** A parent-linked mutable trie stands for a flat table. `Levels` and
  `Matching` define levels and the matching relations, `TrieContents`, `TopicTable`,
  `TopicIndex` and `Topics` the trie by value and on the heap, `Delivery`, `Subscribers`,
  `SubscriberScan` and `MessageScan` the scans, and `History` whole histories of the index.
- **The wire codec.** `Wire`, `Headers`, `Properties` and `Packets` prove round trips from
  variable byte integers up to whole packets.
- **Session takeover and small state machines.** `Takeover`, `WriteBuffer`, `Aliases` and
  `PrefixRange`.

Conventions. Objects that the broker updates in place are classes whose methods are proved
against functions on values (`View`, `Table`, `Sent`). Clocks, connection outcomes, queue
lengths and hook decisions are parameters. Bytes are integers below 256 and packet text is
bytes; topics in the index are strings. Bit fields that do not overlap are joined by addition,
which `Wire.OrDisjoint` equates with bitwise or. The properties record is indexed by property
identifier, with a flagged field present when its flag is set.

## What the code does not promise

Where the code departs from the standard or from its own intent, the model keeps the code as it
is and says when:

- A dropped publish, a PUBACK and an expiry delete their entry first and return its unit of
  send quota second. A resume in between finds the unit missing. If everything left is parked,
  or nothing is left, it repairs a window that has lost nothing, and the unit then exists
  twice. Every client can reach such a resume (`HandoffRace.UnsafeResumesReachable`).
- A PUBCOMP is credited with a unit before its id is looked up. If the message has expired in
  the meantime nothing held that unit, and it then exists twice
  (`LateAnswers.LatePubcompOverdraws`). Every client can get there
  (`LateAnswers.LatePubcompReachable`), with a window of two or more without any race
  (`LateAnswers.QuietLatePubcompReachable`). A PUBACK or PUBREC that meets a parked message
  under its id has the same effect (`FlowControl.KeepsPuback`, `FlowControl.KeepsPubrec`).
- These are the steps that `FlowControl.Safe` excludes: a run in which no publisher is
  disturbed keeps the quota law if and only if each of its steps is safe
  (`FlowControl.SolventIffSafe`), and from every state an unsafe step leads past the window
  (`HandoffRace.UnsafeStepOverdraws`).
- An expired message that the client has not answered is forgotten and its unit returned. The
  client still holds it, so it can be handed more than its Receive Maximum
  (`LateAnswers.ExpiryOverfills`). The excess is at most the number of messages that have
  expired unanswered (`ClientSide.ReceiveMaximumRespected`).
- An expiry before the message is queued, and an answer to an id that has been given out
  again, hit an entry that a publisher still owns. A run keeps its structure if and only if
  neither happens (`FlowControl.StructureIffQuiet`). From every state they lead to two
  publishers with one id, or to one that cannot store its message
  (`LateAnswers.DisturbanceBreaksLaws`); every client can get there
  (`HandoffRace.InHandReachable`, `LateAnswers.DisturbanceReachable`). In the first case a drop
  also deletes the wrong reservation, a unit of send quota exists twice, and the inflight cap
  can be exceeded (`HandoffRace.ExpiryInHandBreaksLaws`).
- A completed inbound QoS 2 exchange returns a unit of send quota that it never took, unless the
  send window is full (`Handlers.InboundExchange`).
- Parked messages are sent oldest first only among those created in the same turn of a 16-bit
  counter of seconds (`InflightWindow.ResumeInTurn`).
- A failing PUBREC deletes its message without returning its unit of send quota
  (`FlowControl.KeepsPubrec`).
- A filter ending in `+/#` does not match at the parent level of its `#`
  (`Matching.ScanMeetsStandard`); a retained message on the parent level of `#` is not
  delivered, and of topics starting with `$` only `$SYS` is kept from a leading wildcard
  (`Matching.RetainedScanMeetsStandard`). Inline subscriptions are not matched at the parent of
  `#` either, and shared and inline filters with a leading wildcard do match topics that start
  with `$` (`SubscriberScan.FindSubscribers`).
- When a member of several shared groups also has subscriptions of its own, only the
  identifier of the share filter it was first picked for survives (`Delivery.JoinedIdentifiers`,
  `SubscriberScan.Recipients`).
- A version 5 client without a Receive Maximum that takes over a session with nothing in
  flight starts with a send window of zero, which turns the quota gate off
  (`Takeover.InheritedQuota`).
- The length decoder accepts encodings of more than four bytes, exactly when the first four
  all announce another (`Wire.OverlongAccepted`, `Wire.OverlongExactly`).
- An alias is given out when a publish is made, before it can be refused, dropped or parked.
  A topic is recovered if and only if the publish carries it or one that introduced its alias
  was delivered (`Aliases.RelaySome`).
- An acknowledgement with a reason code between 1 and 127 and no properties loses its reason
  (`Packets.AckIsSeen`).

## Model

| member | source | states |
|---|---|---|
| `InflightWindow.PutCounts` | inflight.go:53-61 | storing a packet changes the number of sent and of counted entries by exactly what the replaced and the new entry are |
| `InflightWindow.DeleteCounts` | inflight.go:303-312 | deleting an entry lowers both numbers by what the entry was |
| `InflightWindow.ReleaseCounts` | inflight.go:227-252 | taking a parked message out for sending adds one sent entry and keeps the number counted |
| `InflightWindow.RefusedSendUndone` | server.go:738-761 | taking a parked message, charging it, and parking it again when the write fails restores the window, order of messages included |
| `InflightWindow.StampOrder` | inflight.go:238 | the compared stamp orders by the low 16 bits of the creation time, and so by creation within one turn of that counter |
| `InflightWindow.ResumeInTurn` | server.go:738-766 | the messages a resume takes are distinct parked ones, in that order, and none that stays parked goes before them |
| `InflightStore.Inflight.constructor` | inflight.go:46-50 | a new store is the empty window |
| `InflightStore.Inflight.Set` | inflight.go:53-61 | replaces one entry, says whether the id was new, and touches nothing else |
| `InflightStore.Inflight.TryReserve` | inflight.go:70-88 | reserves a free id below the cap, and otherwise says which of taken or full it was and changes nothing |
| `InflightStore.Inflight.ReplaceCounted` | inflight.go:97-110 | stores over a reservation or a free id and counts it, and refuses to overwrite a live message |
| `InflightStore.Inflight.Delete` | inflight.go:303-312 | removes one entry and says whether it was there |
| `InflightStore.Inflight.GetAll` | inflight.go:194-212 | lists every wanted entry exactly once, ordered by the low 16 bits of the creation time, hence oldest first within one turn of that counter |
| `InflightStore.Inflight.Oldest` | inflight.go:194-212 | the chosen entry goes before none of those left, in the same order |
| `InflightStore.Inflight.TakeNextImmediate` | inflight.go:227-252 | takes a parked message when there is one, the oldest among those created in the same turn of the 16-bit counter, and marks it sent |
| `InflightStore.Inflight.RecoverStarvedSendQuota` | inflight.go:258-280 | reopens the window exactly when it is shut, not empty, and nothing but parked messages is stored |
| `InflightStore.Inflight.ResetSendQuotaIfEmpty` | inflight.go:283-300 | refills the window exactly when nothing is stored and quota is missing |
| `InflightStore.Inflight.CountHolding` | inflight.go:134-146 | the loop's count is the number of sent QoS 1 and 2 entries |
| `InflightStore.Inflight.Clone` | inflight.go:134-165 | a fresh store with the same entries, receive quota and maxima, whose send quota is the maximum less what is sent, never below zero |
| `InflightStore.Inflight.ReconcileSendQuotaCap` | inflight.go:170-191 | the new window less what is sent, never below zero; a cap that is not positive changes nothing |
| `InflightStore.Inflight.DecreaseReceiveQuota` | inflight.go:315-325 | takes one unit exactly when there is one |
| `InflightStore.Inflight.IncreaseReceiveQuota` | inflight.go:328-337 | returns one unit exactly when the window is not full |
| `InflightStore.Inflight.ResetReceiveQuota` | inflight.go:340-347 | sets quota and maximum |
| `InflightStore.Inflight.DecreaseSendQuota` | inflight.go:350-360 | takes one unit exactly when there is one |
| `InflightStore.Inflight.IncreaseSendQuota` | inflight.go:363-372 | returns one unit exactly when the window is not full |
| `InflightStore.Inflight.ResetSendQuota` | inflight.go:375-382 | sets quota and maximum |
| `FlowControl.OthersKeepTheirs` | server.go:1127-1221 | a step on a publisher's own id leaves every other publisher the id it owns, with the entry its stage needs, and no reservation without an owner |
| `FlowControl.KeepsReserve` | clients.go:294-324 | reserving any free id below the cap keeps the structure (distinct owners, no orphaned reservation, cap, gauge, quota range) and the units in play |
| `FlowControl.KeepsPassGate` | server.go:1152-1155 | passing the quota gate keeps both: a unit moves from the window to the publisher |
| `FlowControl.KeepsPark` | server.go:1155-1169 | parking keeps both and never meets another live message |
| `FlowControl.KeepsPlace` | server.go:1183-1195 | storing the message keeps both and never meets another live message |
| `FlowControl.KeepsEnqueue` | server.go:1208-1210 | handing the message to the writer keeps both |
| `FlowControl.KeepsTakeOut` | server.go:1198-1218 | the first half of a drop, a PUBACK or an expiry keeps both: the deleted message's unit is now with whoever deleted it |
| `FlowControl.KeepsRestore` | server.go:1198-1218 | the second half keeps both: the unit goes back to the window and the entry leaves the gauge |
| `FlowControl.PubackInTwoSteps` | server.go:1282-1286 | a PUBACK that nothing interrupts has the effect of the whole handler |
| `FlowControl.KeepsPuback` | server.go:1271-1301 | a PUBACK for any id no publisher owns keeps the structure, and the units in play unless it meets a parked message, which credits one |
| `FlowControl.KeepsLatePubcomp` | server.go:1403-1412 | a PUBCOMP for an id that is not stored credits a unit exactly when the window is not full |
| `FlowControl.KeepsPubcomp` | server.go:1403-1427 | a PUBCOMP for any id no publisher owns keeps the structure, and the units in play exactly when a sent message is stored under it or the window is full |
| `FlowControl.KeepsPubrec` | server.go:1304-1342 | a PUBREC keeps the structure; failing, it loses the unit of a sent message; otherwise it credits one exactly when it meets a parked message |
| `FlowControl.NothingCommitted` | inflight.go:254-300 | with nothing but parked messages stored, every unit outside the window is on its way back |
| `FlowControl.BalancedSafety` | inflight.go:254-300 | while no unit is lost, a resume is safe exactly when it repairs nothing, and it repairs nothing unless a unit is on its way back |
| `FlowControl.DrainIsSends` | server.go:738-766 | a pass that refills nothing is exactly the sends it makes |
| `FlowControl.KeepsDrain` | server.go:738-766 | unless the window is to be refilled, the resume loop keeps the structure and the units in play |
| `FlowControl.KeepsResume` | server.go:735-767 | the whole call, repairs included, keeps the structure and loses no unit; it puts no more units in play than the window has if and only if it is safe; when it repairs nothing it is exactly its sends |
| `FlowControl.KeepsStep` | server.go:1127-1221 | every step but a resume, answers of any kind included, that disturbs no publisher keeps the structure and changes the units in play by exactly its credit or loss |
| `FlowControl.StepKeepsInv` | server.go:1127-1221 | every step that disturbs no publisher keeps the structure, and keeps the system solvent if and only if it is safe |
| `FlowControl.DisturbedBreaks` | inflight.go:303-312 | a step that disturbs a publisher leaves it without the entry its stage needs |
| `FlowControl.RunKeepsInv` | server.go:1127-1221 | so after any number of steps of any interleaving with any answers: the structure while no publisher was disturbed, solvency and conservation as long as steps were safe |
| `FlowControl.StructureIffQuiet` | server.go:1127-1221 | a run keeps its structure throughout if and only if no step disturbs a publisher |
| `FlowControl.SolventIffSafe` | server.go:735-767 | a run that disturbs no publisher never has more units in play than the window if and only if each of its steps is safe |
| `FlowControl.WindowRespected` | server.go:1145-1190 | in every such run the quota stays in range and, as long as steps are safe, no more sent messages are stored than the window has units |
| `FlowControl.Conservation` | server.go:1127-1221 | as long as no publisher is disturbed, steps are safe and no PUBREC fails a sent message, free quota plus sent messages plus units held by publishers equals the maximum at every point of every run, and a safe resume repairs nothing and is exactly its sends |
| `FlowControl.NoSilentOverwrite` | inflight.go:70-110 | as long as no publisher is disturbed, safe steps or not, publishers own distinct ids, every reservation has an owner, replacing never fails, the cap holds, and the gauge counts the live entries and the deletions in progress |
| `ClientSide.HoldingSplits` | server.go:1183-1210 | the sent entries are those on the wire and those in the hands of the publishers that stored them |
| `ClientSide.ClientSplits` | server.go:1208-1210 | what the client holds is what the broker waits on and the strays it has forgotten |
| `ClientSide.ExpiryStrays` | clients.go:397-406 | the expiry of a message on the wire makes it a stray |
| `ClientSide.DrainHandsOver` | server.go:738-766 | a resume hands over what it sends and makes no strays |
| `ClientSide.StepStrays` | server.go:1127-1221 | every step of a run with an honest client changes the strays as stated: one more on expiry, one fewer for an answer that meets no sent message, none otherwise |
| `ClientSide.RunStrays` | server.go:1127-1221 | so over whole runs: strays are the messages that have expired unanswered |
| `ClientSide.ReceiveMaximumRespected` | server.go:1145-1190 | in every run with an honest client, undisturbed publishers and safe steps, what the client holds plus all units not with it is at most the Receive Maximum plus its strays, and equals it when no PUBREC fails; then the client holds more than its Receive Maximum exactly when it has more strays than there are units not with it; without expiry it never does (section 4.9 of MQTT 5.0) |
| `HandoffRace.NextIDExists` | clients.go:294-324 | if some id is free there is a first free one in cyclic order |
| `HandoffRace.CursorReaches` | clients.go:294-324 | publishes that are dropped again can bring the cursor to any free id |
| `HandoffRace.Spend` | server.go:1127-1221 | given ids and room, every unit in play can end up with a message the client holds |
| `HandoffRace.LeadsKeeps` | server.go:1127-1221 | publishing alone keeps the structure and the units in play |
| `HandoffRace.HandAllOver` | server.go:1208-1210 | every stored message can be handed over |
| `HandoffRace.UnsafeStepOverdraws` | inflight.go:254-300 | from every state that satisfies the invariant, an unsafe step puts more units in play than the window has and, given room, has a continuation by publishing alone in which more messages are sent than the window allows |
| `HandoffRace.UnsafeResumesReachable` | server.go:1198-1218 | every newly connected client can reach an unsafe resume that finds the map empty and one that finds everything parked |
| `HandoffRace.SecondPublisher` | clients.go:294-324 | the freed id is given to a second publisher while the first still owns it |
| `HandoffRace.DropHitsSecondPublisher` | server.go:1213-1218 | a publisher whose id was reassigned deletes the second publisher's reservation when it drops |
| `HandoffRace.ThirdPublisher` | inflight.go:97-110 | a third publisher of the same id then finds a live message in its way |
| `HandoffRace.CapExceeded` | inflight.go:97-110 | the second publisher, whose reservation was deleted, stores its message in a map that others have filled to the cap |
| `HandoffRace.OneTooMany` | server.go:1183-1195 | and every unit can then be spent, one more than before |
| `HandoffRace.ExpiryInHandBreaksLaws` | clients.go:397-406 | from every state that satisfies the invariant, expiring a message still in its publisher's hands has continuations to two owners of one id, to one unit too many and the gauge one short, to a refused replacement, to an exceeded cap if that leaves ids to spare, and, from a balanced system with room, to an exceeded Receive Maximum |
| `HandoffRace.InHandReachable` | server.go:1183-1195 | every newly connected client can have a message expire in its publisher's hands |
| `LateAnswers.ExpiryOverfills` | clients.go:397-406 | from every balanced state with room, the expiry of a message on the wire leads to a client that holds more than its Receive Maximum |
| `LateAnswers.LatePubcompOverdraws` | server.go:1403-1412 | from every balanced state with a unit out, a PUBCOMP for an id that is not stored puts one unit too many in play and, given room, one message too many is sent |
| `LateAnswers.ExpiryReachable` | clients.go:397-406 | every newly connected client can have its first message expire unanswered |
| `LateAnswers.LatePubcompReachable` | server.go:1403-1412 | its PUBCOMP is then unsafe while the unit is on its way back |
| `LateAnswers.QuietLatePubcompReachable` | server.go:1304-1311 | with a window of two or more, a PUBCOMP after an answered PUBREC is unsafe without any race |
| `LateAnswers.DisturbanceBreaksLaws` | inflight.go:97-110 | from every state that satisfies the invariant, an expiry or answer that disturbs a publisher leads to two owners of one id or to a publisher that finds a live message in its way |
| `LateAnswers.DisturbanceReachable` | clients.go:294-324 | every newly connected client can reach a state in which each answer to a message it holds disturbs a publisher |
| `Drain.DrainMakesProgress` | server.go:738-766 | with writes succeeding, the loop leaves a sent message whenever it had quota and anything was stored |
| `Drain.ResumeMakesProgress` | server.go:735-767 | from any quota in range, lost or not, a resume leaves a sent message whenever the map is not empty, and a full window when it is |
| `Drain.DrainExists` | server.go:738-766 | from every window the loop has a pass in which no write is refused |
| `Drain.AckShrinks` | server.go:1271-1301 | an acknowledgement followed by a resume removes exactly the entry it completes and again leaves a sent message or a full window |
| `Drain.DrainsCompletely` | server.go:1271-1301 | any sequence of acknowledgements of sent messages empties the map in exactly as many completions as it had entries, ending with the whole window free |
| `Drain.EmptyingRunExists` | server.go:1271-1301 | from every settled window some run of acknowledgements and resumes empties the map and restores the whole window, in as many completions as there were entries |
| `Handlers.HandlerSizes` | server.go:894-1010 | every operation, with arbitrary arguments, keeps quotas in range and changes the number of live entries by what it does to the gauge |
| `Handlers.ParkIsProtocolRun` | server.go:1151-1169 | an undisturbed publish that parks is the run of its protocol steps |
| `Handlers.PublishIsProtocolRun` | server.go:1183-1221 | an undisturbed publish that is queued or dropped is the run of its protocol steps |
| `Handlers.InboundExchange` | server.go:894-1010 | an inbound QoS 2 publish on a free id and its release, with the answer written, restore map, receive quota and gauge; a unit of send quota is returned that nobody took |
| `Handlers.OutboundExchange` | server.go:1304-1427 | a PUBREC and its PUBCOMP remove the entry, return one unit of send quota and leave the receive quota as it was |
| `Handlers.ExpiryReturnsUnits` | clients.go:397-406 | a sweep returns exactly the units of the sent messages it removes |
| `Handlers.TakeoverKeepsGauge` | server.go:572-602 | moving a session between client objects keeps the gauge equal to all live entries |
| `Handlers.EventKeepsGauge` | server.go:995-1010 | so does every other broker event |
| `Handlers.GaugeCountsLiveEntries` | server.go:995-1010 | after any history with arbitrary client acknowledgements, the gauge is the number of live entries over all client objects, hence never negative, and every quota is in range |
| `Broker.Client.constructor` | clients.go:162-189 | a new client has an empty store and cursor 0 |
| `Broker.Client.NextPacketID` | clients.go:294-324 | reserves the first free id after the cursor, or after wrapping round, never 0; fails exactly when the store is at its cap or every id is taken |
| `Broker.Client.ClearInflights` | clients.go:359-371 | removes everything and lowers the gauge by the entries that were counted |
| `Broker.Client.ResetInflights` | clients.go:375-379 | removes everything without touching the gauge |
| `Broker.Client.ClearExpiredInflights` | clients.go:382-411 | keeps unchanged exactly the entries that are parked, reserved, or past neither their own expiry (version 5) nor the maximum age; reports those removed and returns a unit for each sent one, up to the window |
| `FlowControl.ExpiryIsFinal` | clients.go:391-395 | what has expired is expired at every later time |
| `FlowControl.ExpiryByAge` | clients.go:391-395 | no message expires by age within the maximum, and every sent one with a creation time does after it |
| `Broker.Client.ResendInflightMessages` | clients.go:327-356 | removes only acknowledgements it has written again, lowers the gauge by their number, and succeeds exactly when the connection accepts as many writes as there are sent entries |
| `Broker.SweepReturns` | clients.go:397-406 | the quota after a pass over all entries is the old quota plus one unit for each that freed one, up to the maximum |
| `Broker.Server.ResumeDeferredPublishes` | server.go:735-767 | the loop is a pass over parked messages, each once, oldest first within one turn of the 16-bit counter and before any left behind, that stops at the first refused write: on an open connection it takes at most one message more than the connection accepts, stops exactly when it takes that one, and never stops when the connection accepts as many as there is quota |
| `Broker.Server.ProcessPuback` | server.go:1271-1301 | a known message is removed, returns its unit of quota and leaves the gauge; a reservation returns nothing; an unknown id changes nothing |
| `Broker.Server.ProcessPubrec` | server.go:1304-1342 | reasons 0 and 0x10 keep the entry as a PUBREL and take a unit of receive quota, all others remove it without returning its unit, an unknown id changes nothing, with the gauge following |
| `Broker.Server.ProcessPubrel` | server.go:1345-1400 | a known id with reason 0 and a written answer ends the exchange: the entry goes and each quota rises by one, up to its maximum; unwritten, the answer waits; any other reason removes the entry alone; the gauge follows |
| `Broker.Server.ProcessPubcomp` | server.go:1403-1427 | a unit of both quotas is returned whatever the id, and the entry and its count go if there is one |
| `Broker.Server.ProcessPublish` | server.go:894-1010 | the QoS part of an inbound publish: receive quota and the stored PUBREC, conflicts with outbound ids included |
| `Broker.Server.PublishToClient` | server.go:1127-1221 | parks exactly when the window is shut, is queued exactly when it is open and the writer has room, is refused exactly at the cap or without a free id, and is otherwise dropped, which returns the unit and removes the entry; the code it returns says which |
| `Broker.Server.StoreAndQueue` | server.go:1183-1221 | past the gate the message is stored with its unit taken, and queued exactly when the connection is open and has room, else taken back |
| `Levels.IndexOfIsFirst` | topics.go:679-698 | the index is that of the first occurrence |
| `Levels.SplitLevels` | topics.go:679-698 | no level contains a separator |
| `Levels.JoinSplit` | topics.go:679-698 | joining the levels of a string gives the string back |
| `Levels.SplitInjective` | topics.go:679-698 | different strings have different levels |
| `Levels.SharePrefixExactly` | topics.go:701-704 | the share prefix is matched in any mixture of cases |
| `Levels.SharedPlace` | topics.go:401-419 | a filter with that prefix is filed in its group under the levels behind the group, any other under all of its levels |
| `Levels.IsolateParticle` | topics.go:679-698 | the loop returns level `d` and whether another follows, the last level again past the end, and nothing for a negative depth |
| `TrieContents.GrowKeeps` | topics.go:479-496 | creating an address adds only empty nodes on its path and changes no entry |
| `TrieContents.FillKeeps` | topics.go:406-417 | filling the new node changes exactly one entry of the table |
| `TrieContents.TrimKeeps` | topics.go:516-522 | trimming loses no entry and leaves no node without purpose |
| `TrieContents.PrunedIsExact` | topics.go:516-522 | in a trimmed trie a node exists only where an entry is stored, at it or below |
| `TopicIndex.Particle.constructor` | topics.go:760-769 | a new particle is empty and linked to its parent |
| `TopicIndex.Particle.SharedLen` | topics.go:162-170 | the count over all groups is zero exactly when there are no groups |
| `TopicIndex.AddedUp` | topics.go:485-492 | adding a child keeps every particle and its parent pointing at each other |
| `TopicIndex.RemovedUp` | topics.go:517-521 | unlinking a leaf keeps every other particle and its parent pointing at each other |
| `TopicIndex.DataChanged` | topics.go:406-417 | changing what one particle holds keeps the whole structure |
| `Topics.TopicsIndex.constructor` | topics.go:356-364 | a new index is empty and well formed |
| `Topics.TopicsIndex.Set` | topics.go:479-496 | creates exactly the missing nodes of the path and returns its last particle |
| `Topics.TopicsIndex.Seek` | topics.go:499-513 | finds the particle at a path exactly when there is one |
| `Topics.TopicsIndex.Trim` | topics.go:516-522 | removes exactly the spare particles from a node upwards |
| `Topics.TopicsIndex.Subscribe` | topics.go:401-419 | changes only the entry of this client at this filter, creates and fills the nodes it needs, and says whether the subscription was new |
| `Topics.TopicsIndex.Unsubscribe` | topics.go:423-448 | removes only that entry; the result says whether anything is stored at or below the filter, not whether the client was subscribed |
| `Topics.TopicsIndex.InlineSubscribe` | topics.go:368-377 | changes only the entry of this identifier at this filter |
| `Topics.TopicsIndex.InlineUnsubscribe` | topics.go:382-396 | removes only that entry, and the result says whether anything is stored at or below the filter |
| `Topics.TopicsIndex.RetainMessage` | topics.go:453-476 | keeps or clears the message of exactly its own topic, marks the path, and reports the change in the number kept |
| `Topics.TopicsIndex.ClearExpiredRetained` | server.go:1906-1920 | keeps unchanged exactly the messages past neither their own expiry (version 5) nor the maximum age, and leaves the table as it is |
| `TopicTable.JoinedCoherent` | topics.go:401-419 | a subscription keeps every entry filed under the place of its filter |
| `TopicTable.RetainedCoherent` | topics.go:453-463 | retaining a message keeps every retained topic recorded where it leads |
| `TopicTable.ReleasedCoherent` | topics.go:470-472 | clearing a message leaves every other retained topic recorded |
| `Matching.ScanMeetsStandard` | topics.go:593-628 | for filters with `#` only at the end and topic names, the scan reaches a filter exactly when section 4.7.1 of MQTT 5.0 matches it and it is not `+/#` at its parent level |
| `Matching.RetainedScanMeetsStandard` | topics.go:530-579 | the retained scan visits a topic exactly when the standard matches it, it is not the parent of `#`, and a leading wildcard does not face `$SYS` |
| `Matching.LiteralRetrieves` | topics.go:539-544 | without wildcard levels only the filter's own topic is retrieved |
| `Matching.ValidFilterLevels` | topics.go:723-726 | a valid filter has `#` in no level but its last |
| `Matching.ValidFilters` | topics.go:707-745 | which filters are valid, stated over their characters and levels |
| `Matching.ValidTopics` | topics.go:707-745 | which topics may be published to, likewise |
| `Matching.ValidTopicLevels` | topics.go:712-721 | a publishable topic has no wildcard level |
| `Matching.ValidFilterMatching` | topics.go:707-745 | for every valid filter, shared or not, and publishable topic, at the place where the index files the filter: the subscriber scan meets the standard except for `+/#` at its parent level, and the retained scan except at the parent of `#` and for `$SYS` facing a leading wildcard |
| `Delivery.MergeFirst` | packets/packets.go:254-274 | the first merge carries the subscription's own options and identifier |
| `Delivery.MergeNext` | packets/packets.go:254-274 | whatever the order, one more merge gives the highest QoS, any NoLocal and exactly the positive identifiers of all merged |
| `Delivery.GatherCollects` | topics.go:631-648 | gathering one more entry keeps: each matched client once, with all its matching subscriptions merged |
| `Delivery.DollarTopics` | topics.go:637-639 | a visited filter contributes unless the topic starts with `$` and the filter with a wildcard |
| `Delivery.PutSharedCollects` | topics.go:656-664 | shared subscriptions are listed by filter and client, and nothing else is |
| `Delivery.InlineCollects` | topics.go:668-676 | inline subscriptions are those of the visited entries |
| `Delivery.PickNext` | topics.go:322-334 | picking one more member keeps: exactly the chosen members, with the options of what they were chosen for |
| `Delivery.JoinedIdentifiers` | topics.go:338-347 | joining a picked member to its own subscriptions keeps all options, and all identifiers if and only if every positive one belongs to the filter it was first picked for |
| `Delivery.SelectNext` | topics.go:322-334 | so does the order of picks: each member carries the filter it was first picked for |
| `Delivery.JoinedServed` | topics.go:338-347 | the same, stated of what a recipient is served with |
| `Subscribers.Subscribers.constructor` | topics.go:583-590 | nothing found yet |
| `Subscribers.Subscribers.GatherSubscriptions` | topics.go:631-648 | every subscription is merged into its client's entry, except that on a topic starting with `$` those starting with `+` or `#` leave it untouched |
| `Subscribers.Subscribers.GatherShared` | topics.go:651-665 | every shared subscription of the particle is listed, nothing else is added |
| `Subscribers.Subscribers.GatherInline` | topics.go:668-676 | the particle's inline subscriptions are added |
| `Subscribers.Subscribers.SelectShared` | topics.go:320-334 | exactly one member of each share filter is selected, with its options merged over its picks |
| `Subscribers.Subscribers.MergeSharedSelected` | topics.go:338-347 | selected members join the subscribers, merged with their own entries |
| `SubscriberScan.HitsSplit` | topics.go:602-625 | the three lookups at a node cover exactly what is reached below it |
| `SubscriberScan.ChildHitsBelow` | topics.go:603-619 | what each lookup covers, at the last level and above |
| `SubscriberScan.ScanSubscribers` | topics.go:593-628 | the recursive scan gathers exactly the reached paths below its node |
| `SubscriberScan.FindSubscribers` | topics.go:583-590 | from any well-formed index: each client with a matching visible filter once, merged; each shared offer listed; nothing for an empty topic |
| `SubscriberScan.AddShareMembers` | server.go:1064-1071 | one member of each share filter is chosen, and exactly the chosen join the other subscribers |
| `SubscriberScan.Recipients` | server.go:1064-1071 | every matching share filter is served by one of its members, every matched client is served, and nobody else is; each recipient has the highest QoS and any NoLocal over its own subscriptions and those it was picked for, and all their identifiers unless it has both kinds and a positive one belongs to another share filter than the one it was picked for first |
| `MessageScan.ThroughChild` | topics.go:553-563 | what one child contributes: its own message at the filter's end, and what remains below it |
| `MessageScan.ExactDelivers` | topics.go:539-544 | the direct lookup agrees with the walk for filters without wildcards |
| `MessageScan.ScanMessages` | topics.go:530-579 | the recursive scan appends the retained messages of exactly the visited paths, each once |
| `MessageScan.Messages` | topics.go:525-527 | from any well-formed index: every retained message whose topic the filter retrieves, once, and nothing else |
| `History.Perform` | topics.go:368-476 | each operation does to the index what it does to the flat table |
| `History.Replay` | topics.go:356-476 | so does any history from an empty index |
| `History.TableIsLastWord` | topics.go:400-448 | after any history an entry is what was last said about its client and filter |
| `History.InlineIsLastWord` | topics.go:368-396 | after any history an inline entry is what was last said about its identifier and filter |
| `History.RetainedIsLastWord` | topics.go:453-476 | after any history a topic retains its last message, unless that was empty or has expired |
| `History.MatchesAreFlatScan` | topics.go:583-648 | the subscriptions merged for a client are exactly those that a flat scan of the history finds |
| `History.FlatScan` | topics.go:583-648 | the clients found are exactly those a flat scan finds, each with the options of exactly its matching subscriptions |
| `History.DollarTopicsAfter` | topics.go:631-648 | for every history and topic starting with `$`, a plain filter contributes if and only if it reaches the topic and does not start with a wildcard |
| `History.SubscribersAfter` | topics.go:583-648 | the same of the running code, for every history and every non-empty topic |
| `History.MessagesAfter` | topics.go:525-579 | for every history with retained messages and expiry, a filter gets each matching retained message once |
| `Takeover.InheritedQuota` | server.go:574-586 | after a takeover the map is the old one, the receive quota is the old one, or the server's when there was none, and the send window is the new cap less what is sent if and only if it is not a version 5 client without a Receive Maximum finding nothing in flight |
| `Takeover.RejoinChangesNothing` | server.go:588-594 | subscribing again with what is held changes no entry and is not new |
| `Takeover.WithoutMore` | server.go:1561-1564 | removing one more filter removes that entry for every client and place, and no other |
| `Takeover.TableAgrees` | server.go:1450-1465 | over every history of unshared subscriptions a client's own table agrees with the index |
| `Takeover.UnsubscribeClient` | server.go:1549-1569 | empties the client's table; unless it was taken over, removes exactly its entries and lowers the gauge by their number |
| `Takeover.CopySubscriptions` | server.go:588-594 | the new connection gets the whole table; index and gauge are unchanged |
| `Takeover.MoveInflight` | server.go:574-586 | the new connection gets the inherited window and the old one is emptied |
| `Takeover.InheritClientSession` | server.go:563-606 | continues the session exactly when neither side asked for a clean one: everything moves, index and gauges unchanged, old client empty; otherwise everything is removed and both gauges fall by what was removed |
| `Wire.OrDisjoint` | packets/codec.go:130-144 | where no bit is set in both, bitwise or is addition |
| `Wire.Uint16RoundTrip` | packets/codec.go:22-28 | two bytes give back the number wherever they stand |
| `Wire.Uint32RoundTrip` | packets/codec.go:31-37 | four bytes give back the number wherever they stand |
| `Wire.Uint16Bytes` | packets/codec.go:22-28 | the higher byte comes first |
| `Wire.Uint32Bytes` | packets/codec.go:31-37 | so for four bytes |
| `Wire.BytesRoundTrip` | packets/codec.go:59-70 | length-prefixed bytes are read back wherever they stand |
| `Wire.StringRoundTrip` | packets/codec.go:40-51 | so is valid text |
| `Wire.ValidIsEncoded` | packets/codec.go:53-56 | whatever is accepted as text is the UTF-8 encoding (RFC 3629, section 3) of characters other than null |
| `Wire.EncodedIsValid` | packets/codec.go:53-56 | and every such encoding is accepted |
| `Wire.EncodeLength` | packets/codec.go:130-144 | the loop appends the variable byte integer |
| `Wire.DecodeLength` | packets/codec.go:146-172 | the loop computes the decoder for every input |
| `Wire.VarintRoundTrip` | packets/codec.go:130-172 | every length up to 268435455 is read back, with its byte count, whatever follows |
| `Wire.VarintIsMinimal` | packets/codec.go:130-172 | an encoding has one to four bytes, and no input that decodes to the same value is shorter |
| `Wire.DecodedFits` | packets/codec.go:146-172 | no input decodes to a value above 268435455, or to one too large for the bytes read |
| `Wire.OverlongAccepted` | packets/codec.go:146-172 | five bytes are accepted where the standard allows four |
| `Wire.OverlongExactly` | packets/codec.go:146-172 | an accepted encoding has more than four bytes if and only if the first four all announce another |
| `Headers.FirstByteRoundTrip` | packets/fixedheader.go:21-63 | a header byte decodes to its header if and only if its flags are those the standard lays down |
| `Headers.FirstByteIsFaithful` | packets/fixedheader.go:27-63 | every accepted byte is the encoding of what it decodes to |
| `Headers.FirstByteMasks` | packets/fixedheader.go:21-23 | the byte is the bitwise or of the fields at their positions in section 2.1.1 of MQTT 5.0 |
| `Headers.AcceptedBytes` | packets/fixedheader.go:27-63 | exactly which first bytes are accepted, and of which type |
| `Headers.FrameRoundTrip` | clients.go:484-530 | header, remaining length and body are separated again, whatever follows |
| `Headers.UnframedWithin` | clients.go:484-530 | whatever is taken off any input was there in full |
| `Properties.PropertiesRoundTrip` | packets/properties.go:199-481 | for every packet type and settings the reader gets exactly the visible properties, in order, and uses exactly the bytes written |
| `Properties.VisibleIsAll` | packets/properties.go:199-363 | all properties are visible if and only if each is legal for the packet and not suppressed |
| `Properties.AllowedByTable` | packets/properties.go:46-74 | which packet may carry which property, as table 2-4 of MQTT 5.0 lists them by packet |
| `Properties.KindsByTable` | packets/properties.go:384-473 | the data type of each property, as the same table lists them |
| `Properties.NumbersSeen` | packets/properties.go:199-363 | exactly which numbers are sent |
| `Properties.TextsSeen` | packets/properties.go:199-363 | exactly which texts are sent |
| `Properties.ListsSeen` | packets/properties.go:232-341 | exactly which subscription identifiers and user properties are sent |
| `Properties.DecodedWithin` | packets/properties.go:366-481 | the decoder never claims more bytes than the input has |
| `Properties.EncodeProperties` | packets/properties.go:199-363 | the encoder appends length and fields |
| `Properties.DecodeProperties` | packets/properties.go:366-481 | the decoding loop, for every input, well formed or not |
| `Packets.PropsRead` | packets/packets.go:654-662 | inside a packet the properties read back and the offset moves past them; earlier versions have none |
| `Packets.ShownIsAll` | packets/packets.go:654-662 | all of them come back if and only if they are canonical |
| `Packets.PublishRoundTrip` | packets/packets.go:610-667 | every well-formed PUBLISH decodes to itself, framing included, if and only if its properties are canonical, and otherwise to what is visible of it |
| `Packets.AckRoundTrip` | packets/packets.go:703-751 | every acknowledgement decodes to what is seen of it |
| `Packets.AckIsSeen` | packets/packets.go:703-751 | that is itself if and only if its properties are canonical and its reason is 0, an error, or accompanied by properties |
| `Packets.OptionRoundTrip` | packets/packets.go:277-299 | a filter's options survive their byte |
| `Packets.OptionMasks` | packets/packets.go:277-291 | the option byte is the bitwise or of the fields at their positions in section 3.8.3.1 of MQTT 5.0 |
| `Packets.EveryOptionByte` | packets/packets.go:294-299 | every byte is made of what is read from it and the reserved bits |
| `Packets.DecodeFilters` | packets/packets.go:945-978 | the loop over filters, for every input; each that is accepted has valid text and a QoS of at most 2 |
| `Packets.SubscribeRoundTrip` | packets/packets.go:891-981 | every well-formed SUBSCRIBE, with any number of filters, decodes to itself if and only if its properties are canonical |
| `Packets.DecodeNames` | packets/packets.go:1097-1105 | the loop over topic filters, for every input |
| `Packets.UnsubscribeRoundTrip` | packets/packets.go:1048-1108 | the same for UNSUBSCRIBE |
| `Packets.FlagsRoundTrip` | packets/packets.go:308-316 | the connect flags survive their byte |
| `Packets.FlagsMasks` | packets/packets.go:308-316 | the flag byte is the bitwise or of the masks of section 3.1.2.3 of MQTT 5.0 |
| `Packets.EveryFlagByte` | packets/packets.go:376-382 | every byte is made of the masks of what is read from it and the reserved bit |
| `Packets.ConnectRoundTrip` | packets/packets.go:302-441 | every CONNECT, with will and credentials, decodes to what is seen of it |
| `Packets.ConnectIsSeen` | packets/packets.go:302-441 | that is itself if and only if its properties are canonical and everything present has its flag |
| `Packets.PublishLayout` | packets/packets.go:610-636 | the bytes of a PUBLISH in the order of section 3.3 |
| `Packets.AckLayout` | packets/packets.go:703-725 | those of an acknowledgement |
| `Packets.SubscribeLayout` | packets/packets.go:891-925 | those of a SUBSCRIBE |
| `Packets.FilterLayout` | packets/packets.go:902-909 | and of each of its filters |
| `Packets.UnsubscribeLayout` | packets/packets.go:1048-1077 | those of an UNSUBSCRIBE |
| `Packets.ConnectLayout` | packets/packets.go:302-354 | those of a CONNECT |
| `Packets.EncodingFails` | packets/packets.go:617-619 | encoding fails exactly for want of a packet identifier |
| `WriteBuffer.Connection.constructor` | clients.go:162-189 | nothing written, nothing waiting |
| `WriteBuffer.Connection.FlushOutbuf` | clients.go:696-706 | moves bytes to the network without losing or reordering any; the buffer is gone exactly on success |
| `WriteBuffer.Connection.Write` | clients.go:651-684 | appends the packet to what is sent or waiting; on success the buffer stays below its size and is empty when no more packets are queued; a failed write loses bytes only of a packet written directly |
| `WriteBuffer.WriteAll` | clients.go:651-706 | for every sequence of packets and queue observations the network and the buffer together hold the packets in order |
| `Aliases.OutboundTopicAliases.constructor` | topics.go:75-80 | no aliases |
| `Aliases.OutboundTopicAliases.Set` | topics.go:84-105 | aliases stay distinct, stable and between 1 and the maximum; none is given exactly when they are used up or disabled |
| `Aliases.InboundTopicAliases.constructor` | topics.go:35-40 | no aliases |
| `Aliases.InboundTopicAliases.Set` | topics.go:50-63 | a topic registers its alias, a known alias without topic resolves, and a maximum of zero disables both |
| `Aliases.Outgoing` | server.go:1116-1125 | the topic is left out exactly when the alias was given before |
| `Aliases.Incoming` | server.go:942-944 | an aliased publish is resolved or registered |
| `Aliases.RelayOne` | topics.go:50-105 | one message, delivered or not: its topic is recovered exactly when it carries it or its alias is known to the receiver |
| `Aliases.RelaySome` | topics.go:50-105 | for every sequence of non-empty topics of which any part is delivered, a delivered topic is recovered if and only if its message carries it or one that introduced its alias was delivered before |
| `Aliases.Relay` | topics.go:50-105 | so when all are delivered, the receiver recovers each topic |
| `PrefixRange.RangeIsPrefix` | hooks/storage/pebble/pebble.go:50-62 | a key has the prefix if and only if it lies between the prefix and its upper bound |
| `PrefixRange.KeyUpperBound` | hooks/storage/pebble/pebble.go:52-62 | the in-place loop computes that bound, and none for prefixes of 0xFF bytes |

## Left out

- Listeners, TLS, websockets, HTTP statistics, the command line and configuration: input, output and wiring.
- Storage hooks other than the prefix range, and restoring from a store, which does not touch the gauge.
- Hooks, access control and authentication: hooks do nothing here and a publish has already been allowed.
- Locks: publishing, PUBACK handlers and the expiry of one entry are split where they release the map's lock; a PUBREC or PUBCOMP handler and a resume call are one step each, and so are a handler's or a sweep's look at an entry and its deletion, so the deletion of an id that was given out again since a sweep listed it is not covered. A PUBCOMP returns its unit before it deletes its entry, so in between an acknowledged message still counts as held.
- Conservation for clients before version 5, whose send window is reset when it reaches zero, and for clients that also send QoS 2 messages: of those only the quota ranges and the gauge are proved.
- Conservation of the receive quota: a PUBREC charges it and ignores failure, so only its range is proved.
- FlowControl.Conservation: says nothing after a step that disturbs a publisher or is not safe, because the law is then false (`FlowControl.StructureIffQuiet`, `FlowControl.SolventIffSafe`).
- FlowControl.NoSilentOverwrite: says nothing after a step that disturbs a publisher, because it is then false (`LateAnswers.DisturbanceBreaksLaws`).
- ClientSide.ReceiveMaximumRespected: is stated for a client that answers only what it holds; a message counts as handed over once it is queued, so the loss of queued messages with the connection is not modelled.
- The order of parked messages beyond the low 16 bits of their creation time, which is all the code compares.
- Copying the payload into stored acknowledgements when packet information is fixed: stored acknowledgements carry no content here.
- Wills, keepalive, logging, `$SYS` publishing, and the counters other than `Info.Inflight` and `Info.Subscriptions`.
- Takeover.TableAgrees: is stated for unshared filters; differently written share prefixes can file two filters of one client in one place.
- Options of a subscription other than QoS, NoLocal and identifiers are not merged here, as the merge does not combine them either.
- CONNACK, SUBACK, UNSUBACK, DISCONNECT, AUTH and PING packets, and the validation functions: they would add members of the same kind.
- Properties: a flagged field with a value but without its flag is not represented; the encoder does not write it.
- Wire.DecodeLength: the 32-bit shift counter is modelled by the weight it stands for, so its wrap-around after more than 600 million continuation bytes is not.
- Packets.DecodeFilters: a version 5 SUBSCRIBE that ends before an option byte is a decoding failure here, where the source indexes past the end of its buffer.
- The client's maximum packet size check after encoding, which refuses the packet as a whole.
