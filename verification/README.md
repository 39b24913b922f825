# A verified model of the mutable groups, the client-info handshake, the rule set and the Amnezia configuration

This project models five parts of the repository in Dafny and proves what they promise.

* **Delayed removal.** A manager moves tags between groups, a pending map and the registrations of
  the outbound and endpoint managers; background workers unregister pending tags that have no open
  connection or are overdue. `RemovalQueue` holds the objects and the effect of each lock-held region
  as a function on values. `RemovalProtocol` is the transition system over those regions, with any
  number of workers and every interleaving; `RemovalPass` follows single passes through it.
  `GroupManager` puts the queue inside the manager.
* **Mutable groups.** `Outbounds` is the bookkeeping both groups share (a tag list beside a map),
  `MutableSelector` the selector, `UrlTestPick` the choice with hysteresis, `UrlTestGroup` the group
  with its probes. Maps are visited, and probes come back, in an arbitrary order.
* **Client-info handshake.** `ClientContext` is what each end does on its connection, `Handshake` the
  two ends over two byte streams with arbitrary chunking, `JsonCodec` the concrete encoding, proved
  self-delimiting (section 4 of RFC 8259 for the object form).
* **Rule set.** `RuleList` is the list editing, in place on arrays and as functions; `RuleSet` the
  filter in memory beside its file; `RuleWrapper` the rule wrappers found by substring search
  (`Text`).
* **WireGuard configuration text.** `IpcText` prints the configuration and reads it back,
  `EndpointStart` builds an endpoint and starts it in two phases, `PeerSplit` cuts a device's answer
  into peers, `WgSocket` frames requests and answers.

## How the source is rendered

Objects whose methods change their fields are classes; each method is proved against a function or
predicate on values (`Unregistered`, `Pick`, `UpdateStep`, `Sweep`, `Next`, `Tail`, ...), and the
theorems are about those. What such a function means is stated a second time in plain terms, field by
field or letter by letter, in a contract or in a lemma whose name ends in `Means`. Where several goroutines take part, one step is one lock-held region
or one atomic operation, and the theorems quantify over whole sequences of steps. History variables
(`windowed`, `added`, `raced`, `replaced`) are ordinary fields that no step reads to decide anything
but themselves.

Where a property needs a hypothesis that the code does not establish by itself, the hypothesis is a
named part of the statement, and a second lemma says what happens without it:

| hypothesis | with it | without it |
|---|---|---|
| empty test and clearing of `running` are one step (`atomicExit`) | `NoLostWork`, `TimedRemoval` | `NoLostWork`, `TimedRemoval` (all tags but those of the exit window, which `WindowedMeans` says exactly), `ExitWindowStrands`, `StrandedStays`, `StrandedAges` |
| no time passes inside a pass, and ticks are punctual (`prompt`) | `TimedRemoval` | `AgeAfterPass` (the age exceeds `forceAfter` by no more than the time since the item was examined), `UnscheduledAges` |
| add-then-dequeue is atomic against a commit | `Partition` | `WeakPartition`, `RaceBreaks` (both exact), `RaceHappens` |
| an add finds its tag in no other group | `Partition` | `RemovedButMember` (exact) |
| a tag is registered with one manager only | `Partition` | `OtherManagerKeeps` (exact) |
| no tag is inserted again inside a pass | the commit acts on the items its pass examined | `ActsOnExamined`, `RemovedAfterDequeue` (exact), `StaleDecision` |
| delays positive, no 16-bit wrap | `WithinTolerance`, `Hysteresis`, `ForcedCheck` | `KeptExactly` (exact, for any delays), `WrapPicksSlower` |
| the choice or a capable member has a recorded delay | `NoFlapping` | `FlapsExactly` (exact) |
| leaf members, `Remove` atomic against probe writes | `UrlTestGroup.RunConsistent` | `StaysAfterLeaving`, `StaysAfterRemove` (exact), `NestedGroupStays` |
| the client waits for the reply | `Transparency` | `EagerClientLoses` |
| the reply arrives in one read | `ReplyNeedsOneRead` (both directions) | the same lemma |
| a failing write leaves the rule file as it was (`os.WriteFile` truncates first) | `AgreementIff`, `RunAgrees` | `AfterTruncation` (exact, for every edit) |
| only `AddItem` fails to save | `RunAgrees` | `AgreementIff` (exact condition for every call) |
| no reload lands between an edit and its save | `RunAgrees`, exact rollback | `ReloadInBetween` (exact) |
| no started tag is a stray prefix of a mentioned one | rule sets do not interfere | `DependsExactly`, `IndependentExactly` (exact) |
| the empty tag is not a member | the selector always has a choice after a remove | `RemoveLeavesChoice` (exact) |
| resolved addresses are valid | every domain peer has an endpoint at bring-up | `SettledPeer` (exact) |

## Model

| member | source | states |
|---|---|---|
| RemovalQueue.Queue.Enqueue | adapter/groups/manager.go:233-253 | a closed queue or an already pending tag changes nothing; otherwise the tag is inserted with the current time; a worker is spawned exactly for a new tag while `running` is false |
| RemovalQueue.Queue.ListOpen | adapter/groups/manager.go:294-299 | the flag of a tag is true exactly when it is in the snapshot and some listed connection of it is still open, whatever the order of the listing |
| RemovalQueue.Queue.Decide | adapter/groups/manager.go:301-306 | the removal list holds, once each and for any visiting order, exactly the snapshot tags whose flag is not set or whose age exceeds `forceAfter` at the moment they are examined |
| RemovalQueue.Queue.Commit | adapter/groups/manager.go:308-324 | the listed tags leave the pending map; each that was still pending leaves the manager its present item names, and only that one; every other registration stays |
| RemovalQueue.Queue.CheckPending | adapter/groups/manager.go:288-325 | an uninterrupted pass keeps exactly the entries that have an open connection and are no older than `forceAfter`, with their items, and unregisters the others from the manager their item names |
| RemovalQueue.Queue.CheckLoop | adapter/groups/manager.go:261-284 | a worker that loses the compare-and-swap does nothing; one that wins it makes passes until the map is empty, the queue is closed or no tick comes, and then clears `running` |
| RemovalProtocol.AtMostOneWorker | adapter/groups/manager.go:262-265 | in every interleaving at most one worker is past the compare-and-swap, and then `running` is set |
| RemovalProtocol.NoLostWork | adapter/groups/manager.go:233-284 | while the queue is open and no live worker is left, the pending tags are exactly those inserted in an exit window; with the merged exit a non-empty map always has a live worker |
| RemovalProtocol.ExitWindowStrands | adapter/groups/manager.go:265-275 | a run of the code's own steps ends open with a pending tag and no worker at all |
| RemovalProtocol.StrandedStays | adapter/groups/manager.go:245-252 | over any run a stranded tag stays pending and no worker appears, until that tag is dequeued or a tag that is not pending is enqueued |
| RemovalProtocol.TimedRemoval | adapter/groups/manager.go:261-325 | with prompt passes and a tick every `pollInterval`, the only pending items of an open queue ever older than `forceAfter + pollInterval` are those inserted inside an exit window that no pass has ended since; with the merged exit there are none |
| RemovalProtocol.StrandedAges | adapter/groups/manager.go:265-275 | a run, under prompt scheduling too, in which an item of the exit window reaches any given age |
| RemovalProtocol.UnscheduledAges | adapter/groups/manager.go:250 | a run in which the worker is not scheduled and the item reaches any given age |
| RemovalPass.JustifiedRemoval | adapter/groups/manager.go:288-325 | in every interleaving a commit removes snapshot tags only, and of those exactly the ones that are still pending and that, when its pass examined them, had no open connection in its listing or were older than `forceAfter`; no snapshot tag without an open connection is pending afterwards |
| RemovalPass.InUseStays | adapter/groups/manager.go:294-306 | over all runs: a tag with an open connection in the listing of a commit's pass stays pending with its item, unless it was older than `forceAfter` when that pass examined it |
| RemovalPass.AgeAfterPass | adapter/groups/manager.go:301-306 | without any assumption on scheduling, an item that has gone through a pass is older than `forceAfter` by no more than the time since that pass examined it |
| RemovalPass.WindowedMeans | adapter/groups/manager.go:245-275 | a tag counts as in the exit window exactly when it was inserted while some worker was between its exit test and the clearing of `running`, and has been neither dequeued nor through the end of a pass since |
| RemovalPass.UndisturbedPass | adapter/groups/manager.go:288-325 | a pass beside which nothing is enqueued or dequeued, whatever else is interleaved, leaves pending exactly the entries that have an open connection and are no older than `forceAfter` by the clock as read for each entry, as `CheckPending` does |
| RemovalPass.ActsOnExamined | adapter/groups/manager.go:308-324 | a tag that a commit removes is pending with the very item that its pass examined if and only if no step since the snapshot inserted the tag, or the last that did inserted an equal item |
| RemovalPass.RemovedAfterDequeue | adapter/groups/manager.go:255-259 | a dequeued tag is removed by a later commit if and only if that commit's pass has doomed it and it was inserted again after its last dequeue |
| RemovalPass.DequeuedIsSafe | adapter/groups/manager.go:255-259 | so a tag dequeued and not inserted again is removed by no later commit |
| RemovalPass.StaleDecision | adapter/groups/manager.go:308-324 | a run in which a commit removes a tag that was dequeued and enqueued again since the snapshot, on the old item's decision |
| GroupManager.MutableGroupManager.AddToGroup | adapter/groups/manager.go:134-159 | which of the errors is returned; a successful call makes an unlisted, registered tag a member and cancels its removal, as the machine's two steps do; a failed one changes nothing |
| GroupManager.MutableGroupManager.CreateForGroup | adapter/groups/manager.go:109-132 | the error cases; otherwise the tag is registered with the endpoint manager exactly if it was before or is created as an endpoint, with the outbound manager likewise, every other registration stays, and a success also makes it a member and cancels its removal; a failing add leaves the created registration |
| GroupManager.MutableGroupManager.RemoveFromGroup | adapter/groups/manager.go:162-191 | the error cases; a success takes the member out and, if it is known, is no group and is not pending yet, schedules it with the current time, as an endpoint exactly if the endpoint manager has it |
| GroupManager.Partition | adapter/groups/manager.go:109-191 | when every add finds its tag in no other group (a tag may move between groups), no tag is created while the other manager has it, and no commit falls between an add and its cancel: with the manager open and between calls, every leaf tag ever added is in exactly one of: member of a group, pending, unregistered; it is in one group only; and a member or pending tag is registered |
| GroupManager.WeakPartition | adapter/groups/manager.go:109-191 | without the last of these, in every interleaving and in the middle of calls: a leaf tag not in transit is in exactly one of the three places if and only if no commit has unregistered it inside its own add without its having been created again or removed since; otherwise it is an unregistered member |
| GroupManager.RaceBreaks | adapter/groups/manager.go:149-157 | over all runs, whatever else happens inside the add and to other tags: an add that joined ends with its tag in exactly one place if and only if none of the steps inside it was a commit that unregistered the tag |
| GroupManager.RaceHappens | adapter/groups/manager.go:149-157 | such a run exists with all other hypotheses met |
| GroupManager.RemovedButMember | adapter/groups/manager.go:174-190 | a removal that schedules its tag, whatever the workers did meanwhile, leaves it pending, and leaves it a member as well if and only if another group held it |
| GroupManager.OtherManagerKeeps | adapter/groups/manager.go:317-321 | a pending tag that no group holds is in exactly one place after the commit that takes it out if and only if the manager its item names was the only one to have it registered |
| GroupManager.EndpointScheduled | adapter/groups/manager.go:125-190 | over all single-owner runs: a tag created as an endpoint, and not pending at any commit since, is scheduled as an endpoint when it leaves its group |
| GroupManager.JustifiedUnregistration | adapter/groups/manager.go:288-325 | over all runs of the whole system: when a tag stops being registered, that step is the commit of a pass in whose snapshot the tag was, and when that pass examined it, it had no open connection in the pass's listing or was overdue |
| GroupManager.QueueRuns | adapter/groups/manager.go:109-325 | a run of the whole system is step by step a run of the queue's machine, so every result about the queue's runs holds in it |
| Outbounds.AddLoop | protocol/group/mutableselector.go:149-166 | for any arguments, repeated ones included: the list grows by the joining tags in order, the map by the same tags, the count is their number, and the missing list is as specified |
| Outbounds.RemoveLoop | protocol/group/mutableselector.go:179-185 | exactly the requested tags leave the map, and the count is the exact size change |
| Outbounds.GrowthListed | protocol/group/mutableselector.go:145-167 | after an add the tag list still lists the map's keys once each, and its growth is the map's growth |
| Outbounds.AddMeans | protocol/group/mutableselector.go:149-166 | tag by tag: who is a member after an add and with which outbound, who joined, and that the growth is the number of those who joined |
| Outbounds.JoiningInOrder | protocol/group/mutableselector.go:150-162 | the tags that join are appended in the order in which they are first asked for |
| MutableSelector.Selector.Start | protocol/group/mutableselector.go:70-96 | the start step: success exactly when all tags are registered |
| MutableSelector.StartRestores | protocol/group/mutableselector.go:78-95 | a successful start of a non-empty group holds exactly its tags' outbounds and chooses the cached tag if that is a non-empty tag of the list, else the first tag |
| MutableSelector.StartFails | protocol/group/mutableselector.go:78-84 | a failed start leaves the choice alone and keeps exactly the outbounds of the tags before the first unknown one |
| MutableSelector.Selector.SelectOutbound | protocol/group/mutableselector.go:98-119 | selects exactly known tags; the cache is written and connections interrupted exactly when the choice changes |
| MutableSelector.Selector.Add | protocol/group/mutableselector.go:145-167 | the new list, map, count and missing tags as specified; the choice is untouched |
| MutableSelector.Selector.Remove | protocol/group/mutableselector.go:171-195 | for any map order: the requested tags leave, the list is rebuilt from the map, and a choice that left is replaced by the first listed tag, which is then written to the cache, or by nothing |
| MutableSelector.SelectMeans | protocol/group/mutableselector.go:104-119 | selecting a member makes its own outbound the choice; selecting anything else changes nothing |
| MutableSelector.AddedMeans | protocol/group/mutableselector.go:145-167 | field by field: an add changes nothing but that each requested, registered non-member joins at the end |
| MutableSelector.RemovedMeans | protocol/group/mutableselector.go:171-195 | field by field: exactly the requested members leave, a choice that is still a member stays, and one that left is replaced by the first listed member, or by nothing |
| MutableSelector.RestartKeepsChoice | protocol/group/mutableselector.go:85-119 | over all runs with a cache file in which some call changed the choice: a fresh start from the resulting cache and list chooses the same tag |
| MutableSelector.RunConsistent | protocol/group/mutableselector.go:70-195 | over all runs after a successful start from duplicate-free tags: the list is duplicate-free and is the map's key set, and the choice is nil or the map's own entry for its tag |
| MutableSelector.AddErrs | protocol/group/mutableselector.go:156-166 | an add errs exactly when some requested tag is neither a member nor registered |
| MutableSelector.RemoveLeavesChoice | protocol/group/mutableselector.go:187-193 | after a remove that leaves the group non-empty there is a choice, except exactly when there was none and the empty tag is a member; a choice that stays a member is kept |
| UrlTestPick.PickBest | protocol/group/mutableurltest.go:518-555 | the two loops return what some pair of visiting orders of the map makes of the scene; the lemmas below hold for every pair |
| UrlTestPick.WithinTolerance | protocol/group/mutableurltest.go:518-555 | a pick made from history has a delay at most every candidate's plus the tolerance, for every visiting order |
| UrlTestPick.Hysteresis | protocol/group/mutableurltest.go:523-546 | when the current outbound has a history the pick differs from it exactly when some candidate beats it by more than the tolerance |
| UrlTestPick.KeptExactly | protocol/group/mutableurltest.go:523-546 | for any number of members and any delays, zero and 16-bit wrap-around included: a recorded current outbound is picked again in every pair of visiting orders if and only if no other member passes the guard at line 541 against it |
| UrlTestPick.WrapExactly | protocol/group/mutableurltest.go:541 | so of two members the faster one stays selected in every order if and only if the slower one's delay plus the tolerance does not wrap below the faster one's |
| UrlTestPick.WrapPicksSlower | protocol/group/mutableurltest.go:541 | at tolerance 50 a member at 65500 displaces one at 100 in some order |
| UrlTestPick.StableExactly | protocol/group/mutableurltest.go:518-555 | a second pick agrees with the first, for all orders of both, if and only if the first is made from history or at most one member is capable |
| UrlTestPick.UninformedPicks | protocol/group/mutableurltest.go:549-554 | with nothing usable recorded the possible picks are exactly the capable members, or nothing when there is none |
| UrlTestPick.FewReplacements | protocol/group/mutableurltest.go:530-546 | one pick replaces a first choice of delay d0 at most (d0 - 1) / (tolerance + 1) times |
| UrlTestPick.FewReplacementsFromScratch | protocol/group/mutableurltest.go:530-546 | the same bound when there is no usable current outbound, counted from the first candidate visited |
| UrlTestGroup.Group.UpdateSelected | protocol/group/mutableurltest.go:501-516 | both choices become picks from the same history, or nil for an empty group; nothing else changes |
| UrlTestGroup.Group.Start | protocol/group/mutableurltest.go:261-288 | success exactly when all tags are registered; a failure empties the map; a success ends with an update of the choices |
| UrlTestGroup.Group.Add | protocol/group/mutableurltest.go:321-347 | the new list, map, count and missing tags as specified; a closed group is unchanged |
| UrlTestGroup.Group.Remove | protocol/group/mutableurltest.go:349-380 | members and their histories leave together, the list is rebuilt in any map order, then the choices are updated |
| UrlTestGroup.StartMeans | protocol/group/mutableurltest.go:265-287 | a successful start of a non-empty group holds exactly its tags' outbounds, a failed one none |
| UrlTestGroup.AddedMeans | protocol/group/mutableurltest.go:328-346 | field by field: an add changes nothing but that each requested, registered non-member joins at the end |
| UrlTestGroup.RemovedMeans | protocol/group/mutableurltest.go:360-371 | field by field: exactly the requested members leave, each with the history under its own tag, and every other member and history stays |
| UrlTestGroup.Group.SelectOutbound | protocol/group/mutableurltest.go:187-204 | the standing choice of the network, or a fresh pick when there is none, or nothing for another network |
| UrlTestGroup.Group.UrlTest | protocol/group/mutableurltest.go:438-499 | for every visiting order, with probes coming back and anybody else writing the history at any time between two launches: each due tag is probed once, the history of every tag not written by others becomes exactly the probes' outcomes over the old entries, the results are those of the members that led to an answered probe, then the choices are updated; after an empty group's check `checking` stays set |
| UrlTestGroup.CheckMeans | protocol/group/mutableurltest.go:451-494 | any check, forced or not: of the tags not written by others exactly those are probed that some member other than a URL-test group stands for, that are known, and that are forced or have no recorded delay or one at least `interval` old; a probed tag's history becomes its outcome, any other is left alone |
| UrlTestGroup.CheckedLeaves | protocol/group/mutableurltest.go:451-494 | for leaf members: which are probed, and that the result reports exactly those that answered, with their answers |
| UrlTestGroup.ForcedCheck | protocol/group/mutableurltest.go:438-555 | after a forced check the history of every member not written by others meanwhile is its probe's outcome and every other unwritten history is unchanged; where some member carrying the network answered and others leave the members alone, the choice is a member that carries it and answered within the tolerance of the best answer |
| UrlTestGroup.NoFlapping | protocol/group/mutableurltest.go:501-555 | for a fixed history, `updateSelected` twice selects for each network what it selects once, whenever that network's choice or a capable member has an entry |
| UrlTestGroup.FlapsExactly | protocol/group/mutableurltest.go:501-555 | the choice for a network is the same after every two updates, in all orders, if and only if it is made from history or at most one member can carry the network |
| UrlTestGroup.RunConsistent | protocol/group/mutableurltest.go:261-555 | over all runs of adds, removes, updates and probe writes of any tag at any time, after a non-empty start and with leaf members: list and map are one set, and both choices are nil or members that carry their network |
| UrlTestGroup.StaysAfterLeaving | protocol/group/mutableurltest.go:360-379 | for either network and any delays, with the history as it stands when the choice is made: an outbound that leaves stays selected if and only if the group is not emptied, the tag it stands for has a recorded delay, and no remaining member passes the guard against it |
| UrlTestGroup.StaysAfterRemove | protocol/group/mutableurltest.go:349-380 | the same for `Remove` as one step, in terms of the history before it; a leaf never stays |
| UrlTestGroup.NestedGroupStays | protocol/group/mutableurltest.go:349-380 | a selected nested group whose present tag has a history is removed and stays selected |
| ClientContext.ReadInfo | tracker/clientcontext/tracker.go:182-194 | for every chunking: what is returned is what the decoder finds in all the bytes it took, `OK` is written exactly on success, and the last read began while no value was complete |
| ClientContext.ReadInfoExact | tracker/clientcontext/tracker.go:182-186 | against a client that writes its info first: the decoder stops with that info, having consumed exactly its encoding, and drops less than one buffer of what the client sent after it |
| ClientContext.SendInfo | tracker/clientcontext/tracker.go:217-235 | success needs the write and both reply bytes in a single read; a failure means a failed write, a short read or other bytes |
| Handshake.Transparency | tracker/clientcontext/tracker.go:136-235 | in every run in which the client reports success: the server has the client's info, consumed exactly its encoding and dropped nothing, and in both directions what was received followed by what is in flight is what was sent |
| Handshake.JsonTransparency | tracker/clientcontext/tracker.go:182-235 | the same with the JSON encoding, for every client info |
| Handshake.ReplyNeedsOneRead | tracker/clientcontext/tracker.go:226-233 | the client's only read succeeds exactly when the server has replied and both bytes come together |
| Handshake.NeverStuck | tracker/clientcontext/tracker.go:182-235 | from every waiting and unbroken state of every run, a given sequence of at most three of the ends' own steps reaches success |
| Handshake.EagerClientLoses | tracker/clientcontext/tracker.go:182-186 | a client that did not wait would lose any payload read together with its info, although both ends report success |
| JsonCodec.JsonSelfDelimiting | tracker/clientcontext/tracker.go:184-218 | the encoding of every info is non-empty, is read back exactly whatever follows it, and is recognised no earlier than its last byte |
| JsonCodec.MarshalMeans | tracker/clientcontext/tracker.go:218 | the encoding, letter by letter, under the struct's field names |
| JsonCodec.EscapeMeans | tracker/clientcontext/tracker.go:218 | which characters have short escapes and which none |
| RuleList.RemoveInPlace | ruleset/rule.go:257-288 | on a slice's array the result is the first places of the array, equal to the functional removal, and nothing is written beyond the slice |
| RuleList.SweepFilters | ruleset/rule.go:276-287 | it keeps exactly the elements outside the item set, each as often as it occurred |
| RuleList.RemoveFirstDropsOne | ruleset/rule.go:262-270 | the one-item form drops exactly one occurrence, if there is one |
| RuleList.RemoveFirstMeans | ruleset/rule.go:262-270 | where things end up: the first occurrence gives way to the last element, and nothing else moves |
| RuleList.SweepInPlaceStays | ruleset/rule.go:276-287 | a kept element stays at its index, except that elements from the end fill the places of dropped ones |
| RuleList.SweepMoves | ruleset/rule.go:276-287 | the last kept element goes to the first place of a dropped one, and the rest is swept in the same way |
| RuleList.FormsAgree | ruleset/rule_test.go:169-244 | on duplicate-free lists the two forms agree as multisets |
| RuleList.MergeThenRemove | ruleset/rule.go:165-174 | removing what was just merged gives back the very same sequence, even if the item was there before |
| RuleList.RemoveIdleIff | ruleset/rule.go:257-288 | a removal leaves the list as it is exactly when none of its items is in it |
| RuleList.RemoveRefines | ruleset/rule.go:257-288 | both forms refine the multiset specification of a removal |
| RuleSet.MutableRuleSet.AddItem | ruleset/rule.go:165-174 | a failure of any kind leaves the filter exactly as it was, whatever the failed write did to the file; success is a merge in memory and file |
| RuleSet.MutableRuleSet.RemoveItem | ruleset/rule.go:178-186 | the removal in memory, and in the file when the write works; an unknown type changes nothing |
| RuleSet.MutableRuleSet.AddItems | ruleset/rule.go:190-193 | the merge of all six lists in memory, and in the file when the write works |
| RuleSet.MutableRuleSet.RemoveItems | ruleset/rule.go:197-200 | the removal in all six lists in memory, and in the file when the write works |
| RuleSet.MutableRuleSet.Modify | ruleset/rule.go:205-227 | for each of the six type names, which field is edited; an unknown name is refused |
| RuleSet.MutableRuleSet.Patch | ruleset/rule.go:230-251 | each of the six fields is edited with the same field of the diff |
| RuleSet.AddedOne | ruleset/rule.go:165-174 | for each type name: a saved `AddItem` appends the item to that field, in memory and in the only rule of the file |
| RuleSet.SavedMeans | ruleset/rule.go:165-200 | any edit that is saved leaves the filter as the only rule of the file; `AddItems` appends each of the six fields |
| RuleSet.RollbackIsExact | ruleset/rule.go:169-171 | the rollback of a failed add restores the whole filter element for element |
| RuleSet.AgreementIff | ruleset/rule.go:165-200 | when a failing write leaves the file as it was, a call from agreement ends in agreement of memory and file exactly when it is saved, or is a load, an `AddItem`, or an edit that names nothing it would change |
| RuleSet.AfterTruncation | ruleset/rule.go:165-200 | for all four edits, when the write fails after the truncation: memory and file agree afterwards exactly when the filter was empty (`AddItem`), or was empty or only that item (`RemoveItem`), or was and stays empty (`AddItems`), or holds nothing the removal does not take out (`RemoveItems`) |
| RuleSet.RunAgrees | ruleset/rule.go:165-354 | memory and file agree after every call of a run in which only `AddItem` fails to save and then leaves the file as it was |
| RuleSet.ReloadInBetween | ruleset/rule.go:165-186 | a reload between an edit and its save loses the edit; a failing save then rolls `AddItem` back exactly if and only if the item was not in the list before |
| RuleSet.EditRefines | ruleset/rule.go:165-251 | every edit refines the per-type multiset specification and leaves the other fields alone |
| RuleSet.RunRefines | ruleset/rule.go:165-251 | so does every run of edits, with the failed saves as given |
| RuleWrapper.RuleSet.Start | ruleset/rule.go:105-147 | the error cases; otherwise exactly the rules whose text mentions the marker are wrapped in place and kept, in order, and the filters are loaded; a second start changes nothing |
| RuleWrapper.ShowMeans | ruleset/rule.go:379-381 | a wrapper shows the wrapped rule's text followed by " enabled=true" or " enabled=false" |
| RuleWrapper.ReferringMeans | ruleset/rule.go:124-135 | the kept wrappers are those of the referring rules, in router order |
| RuleWrapper.SuffixesDoNotMark | ruleset/rule.go:362-381 | the suffixes shown by earlier wrappers never change whether a space-free marker is found |
| RuleWrapper.Composition | ruleset/rule.go:105-147 | after any starts in any order a rule matches exactly when its base rule does and every started rule set whose marker its base text contains is enabled |
| RuleWrapper.OneWrapperEach | ruleset/rule.go:105-147 | with distinct tags each rule set wraps such a rule exactly once, and others not at all |
| RuleWrapper.FoundExactly | ruleset/rule.go:126 | in a text of space-separated parts a marker is found exactly when its tag is a prefix of a mentioned one |
| RuleWrapper.DependsExactly | ruleset/rule.go:105-147 | so a rule matches exactly when its base rule does and every started rule set whose tag is a prefix of a mentioned one is enabled |
| RuleWrapper.IndependentExactly | ruleset/rule.go:105-147 | a rule depends only on the rule sets it mentions if and only if no started tag is a prefix of a mentioned one without being mentioned itself |
| IpcText.IpcConf | transport/amnezia/endpoint.go:46-79 | the text built in branches is the private key's line and the lines of the positive settings in order |
| IpcText.GenerateIpcLines | transport/amnezia/endpoint.go:282-297 | a peer's text is its lines in order, each with a newline in front, absent fields omitted |
| IpcText.ConfText | transport/amnezia/endpoint.go:46-79 | which option is printed under which key, and in which order |
| IpcText.FollowedMeans | transport/amnezia/endpoint.go:47-78 | a setting that is not positive is omitted, a positive one has its own line in decimal |
| IpcText.PeerText | transport/amnezia/endpoint.go:282-297 | the text of a peer, letter by letter |
| IpcText.RoundTrip | transport/amnezia/endpoint.go:46-79 | reading the whole printed text gives back the configuration, omitted and negative settings as zero, all peers and allowed prefixes in order |
| IpcText.Injective | transport/amnezia/endpoint.go:219-222 | two configurations with the same text are the same up to that normalisation |
| EndpointStart.NewEndpoint | transport/amnezia/endpoint.go:38-152 | it is built exactly when the private key is there and decodes, no peer has a complaint, and the prefix set and the device can be made; the first failure in that order decides the error; each peer kept is its raw peer decoded, in order |
| EndpointStart.NewPeer | transport/amnezia/endpoint.go:81-113 | which complaint a peer gives rise to, in the order in which they are looked for, and each field of what is kept of a peer without one |
| EndpointStart.Endpoint.ResolvePeers | transport/amnezia/endpoint.go:160-169 | it fails exactly when some needed resolution fails, having settled only the peers before the first failure; otherwise every peer is settled |
| EndpointStart.Endpoint.Start | transport/amnezia/endpoint.go:153-233 | which of the two phases acts, and what each outcome does to the peers, the device and the text handed to it |
| EndpointStart.Endpoint.TwoPhaseStart | protocol/amnezia/endpoint.go:116-124 | for every peer list the device is attempted at most once, early exactly when no peer needs a resolution, and not at all exactly when a needed resolution fails; at the attempt every domain peer has the address that the resolver answered with its own port, and nothing else has changed; the device is up exactly when the start succeeds |
| EndpointStart.SettledPeer | transport/amnezia/endpoint.go:160-168 | settling changes nothing but the endpoint, which becomes the resolved address with the peer's own port, or stays unset exactly when the answer was an error or an invalid address |
| EndpointStart.PeerConfigText | transport/amnezia/endpoint.go:282-297 | the lines that the device is handed for a peer, letter by letter, IPv6 addresses in brackets |
| EndpointStart.BringUpText | transport/amnezia/endpoint.go:219-222 | the text handed to the device reads back as the configuration with the peers as they stand at bring-up |
| PeerSplit.SplitPeers | cmd/cmd_wg_peer.go:128-144 | the loop ends; the pieces join to the trimmed text, and each starts with `public_key` and holds it only once |
| PeerSplit.SplitUnique | cmd/cmd_wg_peer.go:131-140 | such a split of a text is unique |
| PeerSplit.PrintedPeersSplit | cmd/cmd_wg_peer.go:128-144 | for the printed lines of any non-empty peer list whose values do not contain that word, the one split is one piece per peer, in order, the last without trailing white space |
| PeerSplit.PiecesMean | cmd/cmd_wg_peer.go:131-140 | each of those pieces is its peer's printed text, up to the newline in front of the next |
| PeerSplit.TrimMeans | cmd/cmd_wg_peer.go:130 | trimming takes white space off both ends, and all of it |
| PeerSplit.SpaceMeans | cmd/cmd_wg_peer.go:130 | which code points are white space |
| WgSocket.Normalise | cmd/cmd_wg_peer.go:161-166 | the request is sent with just enough newlines added to end with two |
| WgSocket.TerminatedMeans | cmd/cmd_wg_peer.go:161-166 | which newlines are added: two, one or none |
| WgSocket.ReadReply | cmd/cmd_wg_peer.go:172-183 | what is returned goes up to the first blank line of the stream; an error means there is none |
| WgSocket.FrameUnique | cmd/cmd_wg_peer.go:172-183 | a stream has at most one such message |
| WgSocket.RequestFramed | cmd/cmd_wg_peer.go:161-166 | a request without an earlier blank line is recovered by a reader of the same protocol, whatever follows it |

## Left out

Delayed removal:
- The `done` test at the head of `enqueue` and the insertion are two steps in the code; in the
  machine an enqueue is always possible, which covers a test that went stale.
- The groups of the manager are sets of tags whose own `Add` and `Remove` do not fail for other reasons.
- Errors of `outMgr.Remove` and `epMgr.Remove` (the code ignores them), logging, and `OutboundGroups`.
- RemovalProtocol.TimedRemoval: a tick that fires while a pass is late is not dropped in the machine.
- GroupManager.Partition: is about leaf tags, because a tag that is itself a group is never scheduled
  for removal and so ends up in none of the three places.

Mutable groups:
- Dialling, listening, metrics, the idle and interval timers (`keepAlive`, `checkLoop`), pausing.
- What a nested group stands for is a field of the outbound that does not change during a call.
- The nested URL-test groups that a check sets off are separate objects; what they write to the shared
  history counts as written by others.
- UrlTestGroup.RunConsistent: takes each call and each `updateSelected` as one step, and members as
  leaves; `StaysAfterLeaving` says exactly what happens otherwise.
- A group started empty never sets its history store, and using it then fails; starts are non-empty
  in `RunConsistent`.

Handshake:
- The packet variant (no ordering or delivery is promised there), the bounds rule, and a connection
  that fails after the handshake.
- JsonCodec.JsonSelfDelimiting: the reader accepts the form the encoder writes (fixed member order, no
  white space) and takes characters as code points; invalid UTF-8 is not represented.
- ClientContext.ReadInfo: the decoder's buffer has a fixed size per read; an error from the connection
  is the end of its stream.

Rule set:
- RuleSet.RunAgrees: takes every public call as one step; `ReloadInBetween` is what a reload between the
  edit and the save does.
- Binary rule files, file watching, and the JSON form of the file, which is taken to round-trip.
- RuleList.RemoveInPlace: proves the array form on its own; the rule set's lists are sequences, so two
  slices that share one array are not represented.

Configuration text:
- Base64 and hex decoding are a parameter; keys, addresses and prefixes are opaque one-line texts.
- IpcText.RoundTrip: requires exactly that keys, addresses and prefixes hold no newline, which hex text
  and printed addresses never do.
- EndpointStart.NewEndpoint: whether the prefix set and the device can be made is a parameter.
- The device options, the bind and its reserved bytes, and pause callbacks.
- The reader of the text is written for this project after the WireGuard cross-platform userspace
  configuration protocol; the device's own reader is not part of this model.
- WgSocket.Normalise: excludes the requests on which the code would index out of range (empty, or a
  lone newline).
