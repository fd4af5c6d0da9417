# Norves Editor: a verified model of its backend state machines

The Norves editor drives a game engine over a WebSocket bridge, supervises the engine's
process, serves the same engine to MCP clients over HTTP, and shows its scene as a tree.
This project models the five parts of it whose correctness is a matter of every run or
every input, and proves what they keep.

**Edits, undo and redo.** `Scenes` is the engine's scene as the history sees it: what the
recorded edits and their undo and redo requests do, and what renaming created ids does.
`History` gives every operation of the history state as a function, `HistoryStates` the
class whose methods update its fields, proved against those functions. `EditRecords` says
what an accepted edit is recorded as. `GroupActions` runs a group step by step;
`GroupWalks`, `GroupRuns` and `GroupLife` relate the stacks, the requests sent and the
engine's scene over whole runs with refusals and retries. `ReusedIds` and `GroupStacks` are
about ids that come back and about groups one above the other; `StackRuns` takes a whole
history of groups through undo and redo.
`EditActor` is what the actor does with one item, and what a pending group lets through.
`Tickets` is every interleaving of callers giving up with the actor; `EditQueues` is the
queue those steps update.

**The bridge connection.** `Bridge` has each section under the phase lock, as a function
and as a method of the class that holds the fields. A section that publishes a session is
two steps, because the current generation and the session become visible one after the
other. `BridgeRuns` interleaves any number of connects, reconnects, disconnects, shutdowns
and relay closes. `HistoryReaders` puts the history on top of it: the readers that take
one step and those that take two.

**HTTP responses and write permits.** `HttpHeads` reads a response head, `HttpWire` frames
responses byte by byte (sections 6.3 and 7.1 of RFC 9112), `HttpResponses` puts the two together for
heads written field by field. `Admissions` takes the requests and responses of one
connection in turn, `HttpWireStates` holds the fields. `SseWatchdogs` follows the deadline
of an event stream (a simplification of section 9.2 of the WHATWG HTML standard: lines end
in a line feed only), and `ChunkedStreams` that of one sent in chunks. `Permits` interleaves settings changes, revokes, requests and permits; `Authorization` has the
fields.

**The engine process.** `Processes` interleaves launches, rollbacks, exit monitors, stops
and exit hooks around one holder; `ProcessHolder` has the holder's lock sections.

**The scene tree.** `SceneTrees` decides and performs a drag, `SceneFilter` narrows the
tree, `SceneKeys` flattens it and moves by arrow keys. `SceneRows` is the reference they
are measured against: preorder rows with depths, in which ancestors can be told without
the tree. `Texts` and `Options` are shared.

Methods, classes and loops stand where the source updates state in place. The state
machines are functions from a state and a step to the next state, so that a run is a
sequence of steps and a claim about every run an induction over it. The engine, the
network, callers and clocks are steps and parameters that may take any value.

`dafny verify dfyconfig.toml` checks everything.

## What turned out not to hold as one might expect

- A redo that the engine answers with the id of a still-deleted object of the same group
  makes two records stand for one id. Undone at once, it does no harm; once the rest is
  redone, both records follow the later answer, and from then on no undo takes the object
  of the reused id away. Undo can be relied on exactly if the new id is none that a record
  still to be redone stands for.
- A redo renames created ids in its own group only. Create an object, set its property,
  undo both and redo both: the second redo still names the old id. The next group is on
  track again exactly if its records name no id that moved; the one way out is a
  duplicate whose source has a twin under the old id.
- The completed count of a group is the number of accepted steps exactly while answers
  carry the ids they must. A redone create accepted without an id is not counted; the
  group is then held with its outcome unknown.
- The promise to a caller told "cancelled before the Bridge started" is kept for edits,
  undo, redo and retries. Group controls and discards do not go through the atomic: one
  can run after its caller was told so, exactly if the actor had already looked at its
  ticket.
- `confirmation_history_source` reads the generation and locks the history in two steps
  and is not the actor: with a generation from before a reconnect it empties the new
  history, and lifts a block on it. The actor's own two steps lose nothing, because
  generations never come back and only the actor records.
- A disconnect cancels the attempt it found after letting go of the phase lock. A connect
  that enters in between takes the slot, and the old attempt is not cancelled; it runs on
  to its rejected commit. The cancellation arrives exactly if no other attempt is
  registered and the attempt's own flow does not finish in between.
- A revoke cancels every registered request of another revision than its own, newer ones
  included: the comment at `apps/editor/src-tauri/src/mcp.rs:175` speaks of earlier
  revisions only. A registered request is cancelled exactly if its revision is another
  (`Permits.CleaningSparesItsRevision`). Nothing is let through by it; a slow revoke can cancel a valid request.
- The end of a chunked body is seen exactly if its last chunk is written `0`. Section 7.1
  of RFC 9112 allows more zeros and an extension; after those the permits stay out.
- The watchdog reads lines on the wire, chunk by chunk. An event cut inside the word `data:`
  is missed; one cut behind it counts with its first piece, before it is complete; a comment
  cut before the word counts as an event, so that a keep-alive can extend the deadline. The
  watchdog follows the decoded stream at every moment exactly if no chunk ends in a piece
  that itself starts with `data:`, and where a chunk completes an open line its piece starts
  so just when the line does. Chunks that end at line ends are a special case.
- Between taking the handle and killing, `stop_engine` tears the bridge down. A child
  whose handle has left the holder has been told to die exactly unless such a command has not
  come to its kill.

## Model
| member | source | states |
|---|---|---|
| Scenes.UndoInvertsForward | apps/editor/src-tauri/src/edit_service.rs:1174-1274 | undo sends the request that takes back exactly the recorded edit: the scene is the one before it |
| Scenes.ForwardCommutesWithSwap | apps/editor/src-tauri/src/edit_service/history.rs:1715-1755 | exchanging two ids in a scene and in a record commutes with applying the record; property values are never touched |
| Scenes.ReplayCommutesWithRenaming | apps/editor/src-tauri/src/edit_service/history.rs:1715-1755 | a whole group replayed under renamed ids gives the same scene under the same renaming |
| Scenes.RedoneRecordsAreSwapped | apps/editor/src-tauri/src/edit_service/history.rs:1031-1044 | replacing the given-up id in all records of a group is an exchange of two ids and leaves the records already redone as they are |
| Scenes.BackStaysOnTrack | apps/editor/src-tauri/src/edit_service.rs:2128-2207 | an accepted undo step leaves the scene at the state before the record it undid |
| Scenes.AgainStaysOnTrack | apps/editor/src-tauri/src/edit_service.rs:2128-2207 | an accepted redo step with a fresh id leaves the scene and the renamed records in agreement |
| Scenes.RedoKeepsRecordsIffIdIsFresh | apps/editor/src-tauri/src/edit_service/history.rs:1031-1044 | for any new id outside the scene, the group's records stay a trace from its start exactly if no record still to be redone stands for that id |
| Scenes.WalkingRestores | apps/editor/src-tauri/src/edit_service.rs:2089-2253 | over any back-and-forth of accepted steps: wholly undone is the original scene, wholly redone the group's scene up to a renaming that moves no id of the start; the next undo restores again |
| Scenes.ReusedIdBreaksTheNextUndo | apps/editor/src-tauri/src/edit_service/history.rs:1031-1044 | concrete run: a redo reuses the id of a still-deleted object, the rest is redone, and undoing it all no longer restores the scene |
| ReusedIds.ReusedIdStaysBehind | apps/editor/src-tauri/src/edit_service/history.rs:1031-1044 | after any such reuse, once the rest is redone under any ids, the object of that id stays in the scene wherever the group is walked, wholly undone included, though it was not there at the start |
| ReusedIds.UndoRestoresIffIdIsFresh | apps/editor/src-tauri/src/edit_service/history.rs:1031-1044 | after a redo, undoing the group wholly gives back its start whatever fresh answers follow, exactly if no record still to be redone stood for the new id |
| EditRecords.RecordIsTheEdit | apps/editor/src-tauri/src/edit_service/history.rs:1326-1427 | the record of an accepted edit is true of the scene before it and applied there gives exactly the scene the edit left |
| EditRecords.NoRecordIff | apps/editor/src-tauri/src/edit_service/history.rs:1326-1427 | no record is kept exactly for a create or copy without an id, a change from an unknown value, or no change |
| EditRecords.KeptEditsAreTraced | apps/editor/src-tauri/src/edit_service/history.rs:1293-1486 | edits recorded one after the other are a trace of the scenes they met, from the first to the last |
| HistoryStates.RemapEntries | apps/editor/src-tauri/src/edit_service/history.rs:1031-1036 | renames in every entry of the group and in no other |
| HistoryStates.HistoryState.Synchronize | apps/editor/src-tauri/src/edit_service/history.rs:423-437 | another generation clears everything and bumps the revision, the same one changes nothing |
| HistoryStates.HistoryState.FinishGroupStep | apps/editor/src-tauri/src/edit_service/history.rs:847-896 | the whole new state of an accepted step: the entry on the other stack under its updated record, the group renamed, the pending count advanced; or nothing, with the reason |
| HistoryStates.HistoryState.StartPending | apps/editor/src-tauri/src/edit_service/history.rs:829-845 | the whole new state when a group is held |
| HistoryStates.HistoryState.CountPendingStep | apps/editor/src-tauri/src/edit_service/history.rs:876-894 | a pending group counts its step and is over once its stack holds none of it |
| HistoryStates.HistoryState.ClearCompletedPending | apps/editor/src-tauri/src/edit_service/history.rs:931-945 | clears only a pending group with nothing left |
| HistoryStates.HistoryState.DiscardPending | apps/editor/src-tauri/src/edit_service/history.rs:947-969 | both stacks without the group, and what the caller is told of it |
| HistoryStates.HistoryState.CloseActive | apps/editor/src-tauri/src/edit_service/history.rs:764-779 | the open group's entries join the undo stack in order under one count |
| HistoryStates.HistoryState.CloseUnless | apps/editor/src-tauri/src/edit_service/history.rs:644-650 | closes exactly a group of another token |
| HistoryStates.HistoryState.BeginGroup | apps/editor/src-tauri/src/edit_service/history.rs:598-632 | closes the old group and opens an empty one |
| HistoryStates.HistoryState.RecordSuccess | apps/editor/src-tauri/src/edit_service/history.rs:1324-1486 | where an accepted edit is recorded, when it ends the redo stack, and when it closes a full group |
| HistoryStates.HistoryState.RecordDelete | apps/editor/src-tauri/src/edit_service/history.rs:1303-1317 | an accepted delete empties both stacks |
| HistoryStates.HistoryState.FinishSingle | apps/editor/src-tauri/src/edit_service/history.rs:557-596 | the whole new state of an ungrouped undo or redo, its refusals included |
| HistoryStates.HistoryState.DropAction | apps/editor/src-tauri/src/edit_service/history.rs:971-975 | a failed action gives up its entry only while it is on top |
| GroupActions.SettleReply | apps/editor/src-tauri/src/edit_service.rs:2152-2223 | what each kind of answer does to the history, after the generation is read again |
| GroupActions.TryStep | apps/editor/src-tauri/src/edit_service.rs:2114-2148 | the guards before a step, the request for the record as it is now, and its outcome |
| GroupActions.RunGroupHistoryAction | apps/editor/src-tauri/src/edit_service.rs:2089-2253 | the loop equals the specification run: requests sent, count, end and history |
| GroupWalks.TopStepsAre | apps/editor/src-tauri/src/edit_service/history.rs:536-543 | the prepared steps are the run of entries of one group on top, topmost first |
| GroupWalks.PreparedStepsAre | apps/editor/src-tauri/src/edit_service/history.rs:527-555 | undo prepares the group's done records in reverse, redo its undone ones forward |
| GroupWalks.NextStepRefreshes | apps/editor/src-tauri/src/edit_service/history.rs:810-827 | re-reading the next step finds it, on top, with its current record |
| GroupWalks.AcceptedStepMovesWalk | apps/editor/src-tauri/src/edit_service/history.rs:847-896 | finishing an accepted step, in either direction and under any usable id, moves both stacks exactly as the scene moved |
| GroupRuns.RunFollowsWalk | apps/editor/src-tauri/src/edit_service.rs:2089-2253 | for any answers of a run: accepted requests are the next steps in order, the engine's scene is the walk's, and a known refusal leaves exactly a retryable pending group with the right count |
| GroupRuns.RetryIsWhatIsLeft | apps/editor/src-tauri/src/edit_service/history.rs:781-808 | a retry prepares exactly the steps not yet accepted |
| GroupRuns.RetriesAreExactlyOnce | apps/editor/src-tauri/src/edit_service.rs:2104-2253 | over any number of retries, the accepted requests are the remaining steps once each and in order, and the count reported is the number accepted |
| GroupRuns.GroupIsExactlyOnce | apps/editor/src-tauri/src/edit_service.rs:2104-2253 | the same for a whole undo or redo, its first run and all retries |
| GroupLife.OpenGroupHolds | apps/editor/src-tauri/src/edit_service/history.rs:1440-1468 | an open group holds its edits in order and the first of them ends the redo stack |
| GroupLife.RecordedGroupIsLinked | apps/editor/src-tauri/src/edit_service/history.rs:598-632 | a group recorded and closed stands on the undo stack as its edits, ready to be walked back |
| GroupLife.WorkedOffGroupRestoresScene | apps/editor/src-tauri/src/edit_service.rs:2089-2253 | through whatever refusals and retries, a group undone to the end gives back its starting scene, redone to the end its own up to renaming |
| GroupStacks.OtherGroupsKeepTheirRecords | apps/editor/src-tauri/src/edit_service/history.rs:1031-1044 | a step of one group leaves the records of every other group as they are |
| GroupStacks.RedoOfTwoEditsLosesTheSecond | apps/editor/src-tauri/src/edit_service/history.rs:557-596 | a history reached by two edits and two undos: create an object, set its property, redo both under a new id; the second redo still names the old id and changes nothing |
| GroupStacks.SameEffectIff | apps/editor/src-tauri/src/edit_service.rs:1174-1274 | where the renamed record fits, the unrenamed one fits and does the same exactly if it is the same record, or copies a twin of its source |
| GroupStacks.OnTrackAgainIff | apps/editor/src-tauri/src/edit_service/history.rs:1031-1044 | after a redo below it renamed ids, the next group is on track again, doing at every step what it first did, exactly if each record names no moved id, or copies a twin |
| GroupStacks.OnTrackAgainIffNoMovedIdIsNamed | apps/editor/src-tauri/src/edit_service/history.rs:1031-1044 | where no given-up id was taken into use again, exactly if no record names a moved id |
| GroupStacks.StackIsOnTrackAgainIff | apps/editor/src-tauri/src/edit_service.rs:2089-2253 | undo all and redo all over a whole stack of groups: every scene is the first one renamed and every group on track exactly if none is disturbed by the renamings before it |
| GroupStacks.RedoneStackIsReadyToUndo | apps/editor/src-tauri/src/edit_service.rs:2089-2253 | each group of such a stack then stands ready to be undone to where it was redone from |
| StackRuns.RecordedGroupIsHeld | apps/editor/src-tauri/src/edit_service/history.rs:598-632 | a group recorded and closed lies on top of the stack of closed groups, and nothing is left to redo |
| StackRuns.RecordedEditIsHeld | apps/editor/src-tauri/src/edit_service/history.rs:1467-1486 | so does an edit outside a group |
| StackRuns.GroupUndone | apps/editor/src-tauri/src/edit_service.rs:2089-2253 | undoing the top group of the stack, through its retries or by one ungrouped request, gives back the scene it was recorded in and moves it, its records unchanged, to the redo stack |
| StackRuns.GroupRedone | apps/editor/src-tauri/src/edit_service.rs:2089-2253 | redoing the next group on track moves it back under its renamed records, the scene being theirs and no id of the start moved |
| StackRuns.StackIsUndone | apps/editor/src-tauri/src/edit_service.rs:2089-2253 | undone one after the other through any refusals and retries, the groups of a history give back the scene each was recorded in, down to the first |
| StackRuns.StackIsRedone | apps/editor/src-tauri/src/edit_service.rs:2089-2253 | redone one after the other, as long as none is disturbed, every scene is the recorded one under the renamings so far, and the history holds the groups under their own |
| StackRuns.RedoIsOnTrackIffUndisturbed | apps/editor/src-tauri/src/edit_service/history.rs:1031-1044 | after undoing all of a history and redoing some of it, what it prepares to redo next are the records as first recorded, on track exactly if the renamings so far disturb none |
| StackRuns.RedoneStackIsUndoneAgain | apps/editor/src-tauri/src/edit_service.rs:2089-2253 | an undisturbed history redone and undone again gives back the first scene, whatever ids the redo was answered with |
| GroupLife.SingleActionIsAGroupOfOne | apps/editor/src-tauri/src/edit_service/history.rs:557-596 | an ungrouped action answered usably leaves the same history as the step of a group of one |
| GroupLife.AcceptedStepIsCountedIffUsable | apps/editor/src-tauri/src/edit_service.rs:2189-2224 | an accepted step is counted exactly if its answer carries the id it needs; otherwise the group is held unknown and cannot be retried |
| GroupLife.CountFallsBehind | apps/editor/src-tauri/src/edit_service.rs:2189-2224 | concrete redo accepted without an id: one request accepted, none counted, no retry |
| EditActor.HandleControl | apps/editor/src-tauri/src/edit_service.rs:1972-2072 | controls and discards: verdict and new history on every path |
| EditActor.PassGate | apps/editor/src-tauri/src/edit_service.rs:1610-1700 | the gate every write passes: verdict, prepared action and new history |
| EditActor.ProcessItem | apps/editor/src-tauri/src/edit_service.rs:1520-1970 | one item from guards to settlement: writes started, verdict, new history |
| EditActor.HistoryItemRunsIffItNamesTheHead | apps/editor/src-tauri/src/edit_service.rs:1626-1645 | an undo or redo runs exactly if it names the head and revision visible when taken, even if closing a group bumps the revision; it then starts with that head |
| EditActor.UnsettledBlocks | apps/editor/src-tauri/src/edit_service.rs:1617-1624 | while an outcome is unknown no item, reader or timer writes or settles it |
| EditActor.NothingIsWrittenWhileUnsettled | apps/editor/src-tauri/src/edit_service.rs:1617-1624 | so over any sequence of them, until a discard or another generation |
| EditActor.OnlyRetryWritesWhilePending | apps/editor/src-tauri/src/edit_service.rs:1617-1624 | while any group is pending only a retry writes, and not one of an unknown outcome |
| EditActor.OnlyRetryOrDiscardEndsPending | apps/editor/src-tauri/src/edit_service.rs:1617-1624 | over any run without a retry or discard, a pending group stays as it is and nothing is written |
| EditActor.UnknownEditIsTheLastWrite | apps/editor/src-tauri/src/edit_service.rs:1880-1906 | an edit of unknown outcome is the last write until a discard or another generation |
| EditActor.UnansweredGroupIsTheLastWrite | apps/editor/src-tauri/src/edit_service.rs:2167-2180 | so is a group request that got no answer, in a first run or a retry |
| Tickets.NextKeepsInv | apps/editor/src-tauri/src/edit_service.rs:1329-1430 | every step of callers and actor keeps order, single answers and the truth of each ticket |
| Tickets.EveryTicketIsAnsweredOnce | apps/editor/src-tauri/src/edit_service.rs:915-957 | items are served in acceptance order and, once the actor is gone in any way, each accepted ticket has exactly one answer |
| Tickets.CancelledNeverRuns | apps/editor/src-tauri/src/edit_service.rs:195-204 | an edit, history or retry item cancelled in time never runs in the rest of the run |
| Tickets.CallersAreToldTheTruth | apps/editor/src-tauri/src/edit_service.rs:237-270 | told cancelled, it never runs; told unknown, it had started; dropped before starting, it never starts |
| Tickets.ToldCancelledControlIsSafeIffUnchecked | apps/editor/src-tauri/src/edit_service.rs:1538-1546 | a group control told cancelled stays unrun exactly if the actor had not looked at its ticket yet |
| Tickets.ControlCanRunAfterItWasToldCancelled | apps/editor/src-tauri/src/edit_service.rs:1972-2072 | concrete run in which it runs after its caller was told cancelled |
| EditQueues.EditQueue.Enqueue | apps/editor/src-tauri/src/edit_service.rs:897-957 | one critical section is one step of the system, with its refusal |
| EditQueues.EditQueue.GiveUpStep | apps/editor/src-tauri/src/edit_service.rs:237-270 | each atomic operation of a deadline is one step of the system |
| EditQueues.EditQueue.StartItem | apps/editor/src-tauri/src/edit_service.rs:1728-1740 | winning the atomic starts the item, losing it answers cancelled |
| EditQueues.EditQueue.CloseAndDrain | apps/editor/src-tauri/src/edit_service.rs:1424-1430 | the exit loop answers every queued item once, in order |
| Bridge.BridgeState.BeginConnect | apps/editor/src-tauri/src/bridge_state.rs:933-956 | a connect enters only a disconnected phase, with its session unpublished and attempt registered |
| Bridge.BridgeState.BeginReconnect | apps/editor/src-tauri/src/bridge_state.rs:1109-1129 | a reconnect takes the old connection out and enters, or changes nothing |
| Bridge.BridgeState.TryCommit | apps/editor/src-tauri/src/bridge_state.rs:512-530 | commits exactly the attempt that still owns the phase, with session and event |
| Bridge.BridgeState.ResetAttempt | apps/editor/src-tauri/src/bridge_state.rs:503-509 | resets exactly the attempt that still owns the phase |
| Bridge.BridgeState.RelayEnded | apps/editor/src-tauri/src/bridge_state.rs:704-719 | a relay resets exactly the phase of its own generation and announces it |
| Bridge.BridgeState.Take | apps/editor/src-tauri/src/bridge_state.rs:1015-1028 | hands out the phase and leaves it disconnected and unpublished |
| BridgeRuns.StepKeepsInv | apps/editor/src-tauri/src/bridge_state.rs:933-1181 | each of the eighteen steps keeps every invariant below |
| BridgeRuns.LeaseIsThatOfThePhase | apps/editor/src-tauri/src/bridge_state.rs:335-349 | at every release of the phase lock the lease is that of the phase, for every interleaving |
| BridgeRuns.PinIsHonest | apps/editor/src-tauri/src/bridge_state.rs:138-148 | a pinned lease was connected when the call read the generation, and at every instant of the call if still connected at its end |
| BridgeRuns.TokensNeverComeBack | apps/editor/src-tauri/src/bridge_state.rs:541-561 | a token goes connecting, at most once connected, then is gone for good, in whatever order drawn tokens enter |
| BridgeRuns.StaleStepsChangeNothing | apps/editor/src-tauri/src/bridge_state.rs:384-404 | commits, failures, relay closes, finishes and cancels of a token that owns neither phase nor attempt change nothing |
| BridgeRuns.OthersLeaveAnAttemptAlone | apps/editor/src-tauri/src/bridge_state.rs:503-561 | a connecting phase is lost only to its own steps, its own relay or a disconnect |
| BridgeRuns.EventsOfOneGeneration | apps/editor/src-tauri/src/bridge_state.rs:704-719 | a generation announces nothing, up, down, or up then down, and up exactly when it is connected |
| BridgeRuns.EventsOfEveryRun | apps/editor/src-tauri/src/bridge_state.rs:704-719 | the same from the start, for every run and token |
| BridgeRuns.QuietBridgeHasOnlyItsRelay | apps/editor/src-tauri/src/bridge_state.rs:729-804 | with no flow or teardown under way, disconnected has no relay or dispatcher left and connected exactly its own |
| BridgeRuns.CancellationCanBeLost | apps/editor/src-tauri/src/bridge_state.rs:1015-1032 | concrete run in which a disconnect's cancellation misses its attempt because a newer one took the slot; that attempt can still never be committed |
| BridgeRuns.CancellationArrivesIffNotDisplaced | apps/editor/src-tauri/src/bridge_state.rs:384-404 | over any run, a disconnect cancels the attempt it interrupted exactly if it was still registered and, until then, no other attempt was registered and its own flow did not finish |
| HistoryReaders.ReadersSeeOnlyTheirGeneration | apps/editor/src-tauri/src/edit_service.rs:1041-1068 | no reader, current or stale, sees a record made under another generation than the one it uses |
| HistoryReaders.RecordIsKeptIffNoStaleUse | apps/editor/src-tauri/src/edit_service.rs:1053-1068 | while its generation is current a record is lost exactly if a confirmation reader uses a generation it read before |
| HistoryReaders.ActorLosesNoRecord | apps/editor/src-tauri/src/edit_service.rs:2182-2206 | the actor's own two-step reads lose no record of the current generation |
| HistoryReaders.ConfirmationReaderCanLoseRecords | apps/editor/src-tauri/src/edit_service.rs:1053-1068 | concrete run, from the first connect on, in which a confirmation reader empties the current history |
| HttpHeads.NoEarlierBreak | apps/editor/src-tauri/src/mcp.rs:1163-1165 | a blank line occurs in a head or chunked body only at its end |
| HttpHeads.RenderedHeadIsHeading | apps/editor/src-tauri/src/mcp.rs:1158-1165 | a rendered head within the limit is seen whole, once, at its last byte |
| HttpHeads.StatusIsReadBack | apps/editor/src-tauri/src/mcp.rs:1196-1206 | the status code of a rendered head is read back |
| HttpHeads.LengthIsReadBack | apps/editor/src-tauri/src/mcp.rs:1230-1235 | the length read is that of the first content-length field with a number, in any letter case |
| HttpHeads.ChunkingIsReadBack | apps/editor/src-tauri/src/mcp.rs:1227-1230 | a head is chunked exactly if a transfer-encoding field says so |
| HttpWire.FeedOfConcat | apps/editor/src-tauri/src/mcp.rs:1149-1192 | how writes split the stream does not matter |
| HttpWire.NoEarlierLastChunk | apps/editor/src-tauri/src/mcp.rs:1175-1181 | before the end of a chunked body nothing looks like its last chunk |
| HttpWire.LastChunkIffOneZero | apps/editor/src-tauri/src/mcp.rs:1175-1181 | at its end it does exactly if the last chunk is written with a single zero |
| HttpWire.ResponseEndsAtItsLastByte | apps/editor/src-tauri/src/mcp.rs:1149-1287 | any well-formed response, in any splits at any times, is ended at exactly its last byte: permits kept until then, returned there, header state restored |
| HttpWire.EveryResponseOfARunIsFramed | apps/editor/src-tauri/src/mcp.rs:1149-1287 | so is every response of a kept-alive connection |
| HttpWire.OtherLastChunksAreMissed | apps/editor/src-tauri/src/mcp.rs:1175-1181 | any chunked body: it is ended at its end exactly if its last chunk is a single zero, else its permits stay out |
| HttpResponses.WrittenHeadIsRead | apps/editor/src-tauri/src/mcp.rs:1194-1236 | a head written field by field is seen whole and read back: status, length, chunking |
| HttpResponses.WrittenResponseEndsAtItsLastByte | apps/editor/src-tauri/src/mcp.rs:1149-1287 | any interim heads, head and payload as announced by their fields are ended at exactly the last byte |
| HttpResponses.AnyBytesCanBeAnnounced | apps/editor/src-tauri/src/mcp.rs:1231-1236 | for any bytes, up to the largest length the field can carry, there is such a response: a plain head with their count, within the head limit |
| HttpWireStates.ConnectionState.RetainRequest | apps/editor/src-tauri/src/mcp.rs:934-945 | refused while a request is active, which then stays |
| HttpWireStates.ConnectionState.Finish | apps/editor/src-tauri/src/mcp.rs:947-958 | takes out only the request it names |
| HttpWireStates.SseWireTracker.Begin | apps/editor/src-tauri/src/mcp.rs:1194-1269 | a head's effect on tracker and connection, every branch |
| HttpWireStates.SseWireTracker.FinishBody | apps/editor/src-tauri/src/mcp.rs:1271-1287 | the end of a body: permits returned, tracker reset |
| HttpWireStates.SseWireTracker.ObserveByte | apps/editor/src-tauri/src/mcp.rs:1156-1191 | one byte, in head or body |
| HttpWireStates.SseWireTracker.Observe | apps/editor/src-tauri/src/mcp.rs:1149-1192 | the byte loop equals feeding the bytes one by one |
| Admissions.EveryRequestFindsAnIdleConnection | apps/editor/src-tauri/src/mcp.rs:1468-1542 | over any run of requests on one connection, admitted, refused or answered before, each finds it idle: it is admitted exactly if a permit is free and its key is not in use elsewhere |
| Admissions.EventStreamHoldsItsPermit | apps/editor/src-tauri/src/mcp.rs:1534-1541 | an admitted event stream holds permit and request until its last byte on the wire, any other response not even at its first |
| HttpWireStates.ConnectionState.Admit | apps/editor/src-tauri/src/mcp.rs:1468-1514 | taking a permit and registering the request, with both refusals |
| HttpWireStates.ConnectionState.HandOver | apps/editor/src-tauri/src/mcp.rs:1534-1541 | what the handler itself gives back |
| SseWatchdogs.ScanFollowsLine | apps/editor/src-tauri/src/mcp.rs:1312-1338 | the scanner knows of the current line whether it starts with `data:` |
| SseWatchdogs.WatchdogFollowsDataLines | apps/editor/src-tauri/src/mcp.rs:1168-1172 | the watchdog remembers the end of the last completed `data:` line, or its start |
| SseWatchdogs.DeadlineIsCapOrIdle | apps/editor/src-tauri/src/mcp.rs:1375-1377 | the deadline is the smaller of start plus maximum and that moment plus idle |
| SseWatchdogs.KeepAlivesNeverExtend | apps/editor/src-tauri/src/mcp.rs:1313-1332 | bytes that complete no `data:` line never move it |
| SseWatchdogs.DeadlineNeverShrinks | apps/editor/src-tauri/src/mcp.rs:1375-1391 | with times in order it never moves back and never passes the cap |
| SseWatchdogs.WithoutPermitTheRequestDeadlineHolds | apps/editor/src-tauri/src/mcp.rs:1362-1373 | an event stream without a stream permit never outlives its request's deadline |
| SseWatchdogs.StreamDeadlineFromItsHead | apps/editor/src-tauri/src/mcp.rs:1235-1244 | from its head on a stream with a permit has lifetime and idle time for a deadline, one without the deadline of its request |
| ChunkedStreams.InStepIffCutWell | apps/editor/src-tauri/src/mcp.rs:1313-1332 | for any chunks: at every byte of the data and after every chunk the wire shows the decoded stream's last event exactly if no chunk ends in a piece that itself starts with `data:`, and where a chunk completes an open line its piece starts so just when the line does |
| ChunkedStreams.InStepAtLineEndsIff | apps/editor/src-tauri/src/mcp.rs:1313-1332 | at the line ends of the stream alone: exactly if the last piece of every line starts with `data:` just when the line does, and no earlier piece of another line |
| ChunkedStreams.CutLine | apps/editor/src-tauri/src/mcp.rs:1313-1332 | one line cut once: what the wire and the decoded stream show at its end, for any two pieces |
| ChunkedStreams.CutLineIsRightIff | apps/editor/src-tauri/src/mcp.rs:1313-1332 | they agree exactly if the second piece starts with `data:` just when the line does |
| ChunkedStreams.CutEventIsMissed | apps/editor/src-tauri/src/mcp.rs:1313-1332 | cut anywhere inside the word, an event is missed |
| ChunkedStreams.CutEventCountsEarly | apps/editor/src-tauri/src/mcp.rs:1313-1332 | cut behind the word, an event counts with its first piece and not when it is complete |
| ChunkedStreams.CutCommentCounts | apps/editor/src-tauri/src/mcp.rs:1313-1332 | a comment cut before `data:` counts as an event |
| ChunkedStreams.WatchesTheStreamIffCutWell | apps/editor/src-tauri/src/mcp.rs:1168-1172 | what the watchdog itself remembers is, at every moment, the decoded stream's last event exactly if the stream is cut well |
| ChunkedStreams.CutWellDeadlineIsRight | apps/editor/src-tauri/src/mcp.rs:1375-1377 | and then its deadline is at every byte the one the events call for |
| ChunkedStreams.ChunkedDeadlineFollowsEvents | apps/editor/src-tauri/src/mcp.rs:1168-1172 | the case of chunks that end at line ends |
| Permits.RevisionsNameSettings | apps/editor/src-tauri/src/mcp.rs:208-224 | revisions only grow and one policy revision stands for one setting, so going back to old settings revives no permit |
| Permits.AcceptedPermitHolds | apps/editor/src-tauri/src/mcp.rs:240-370 | an accepted permit was issued under the settings, revision, generation, request and operation that hold when it is validated; never read-only; unconfirmed only when enabled and nothing asks for confirmation |
| Permits.IssuedPermitIsAcceptedIff | apps/editor/src-tauri/src/mcp.rs:342-370 | an issued permit is accepted exactly while policy and lease are current and it is used for what it was issued for |
| Permits.SettledRevocationCancelsAll | apps/editor/src-tauri/src/mcp.rs:151-200 | once no revoke is half-way, every request of an earlier revision is cancelled, whatever raced with it |
| Permits.CleaningSparesItsRevision | apps/editor/src-tauri/src/mcp.rs:176-200 | a revoke cancels a registered request exactly if it carries another revision than the revoke's own |
| Permits.SlowRevokeCancelsCurrentRequest | apps/editor/src-tauri/src/mcp.rs:176-200 | concrete run in which a slow revoke cancels a request of a newer, current revision |
| Authorization.McpAuthorization.UpdatePolicy | apps/editor/src-tauri/src/mcp.rs:208-221 | invalid or equal settings change nothing, others get a new revision |
| Authorization.McpAuthorization.CancelOthers | apps/editor/src-tauri/src/mcp.rs:183-196 | the retain loop keeps the requests of its revision in order and cancels the others |
| Authorization.McpAuthorization.Register | apps/editor/src-tauri/src/mcp.rs:151-173 | a request that read an old revision is cancelled instead of registered |
| Processes.StepKeepsInv | apps/editor/src-tauri/src/process_runtime.rs:214-528 | every step keeps each handle in exactly one place |
| Processes.HandleLeavesAtMostOnce | apps/editor/src-tauri/src/process_runtime.rs:324-528 | a generation's handle leaves the holder at most once among monitor, stop, rollback, exit hook and overwrite |
| Processes.ExitEventFiresOnce | apps/editor/src-tauri/src/process_runtime.rs:413-439 | the exit event fires at most once, only if the monitor took the handle, never with a stop's signal |
| Processes.ToldUnlessStillTaken | apps/editor/src-tauri/src/process_runtime.rs:457-482 | of a handle that has left, the child has been told to die exactly unless the command that took it has not reached its kill |
| Processes.IdleEngineHasNoOrphan | apps/editor/src-tauri/src/process_runtime.rs:324-528 | with no command at work every running child but the held one has been told to die |
| Processes.StopLeavesAWindow | apps/editor/src-tauri/src/process_runtime.rs:457-482 | concrete run in which a stopped child runs on, untold, while a new launch is let in |
| ProcessHolder.ProcessState.IsFree | apps/editor/src-tauri/src/process_runtime.rs:220-228 | a launch goes on exactly with an empty holder |
| ProcessHolder.ProcessState.AllocGeneration | apps/editor/src-tauri/src/process_runtime.rs:131-134 | a launch gets the next generation |
| ProcessHolder.ProcessState.Store | apps/editor/src-tauri/src/process_runtime.rs:326-335 | storing drops whatever was held |
| ProcessHolder.ProcessState.TakeBack | apps/editor/src-tauri/src/process_runtime.rs:347-361 | a rollback takes its own handle and puts another's back |
| ProcessHolder.ProcessState.ClearIfOwned | apps/editor/src-tauri/src/process_runtime.rs:396-429 | the monitor clears only its own generation |
| SceneTrees.FindNode | apps/editor/src/components/SceneOutlinerPanel.tsx:542-553 | the search loop finds the first node in preorder, or nothing |
| SceneTrees.AnySubtreeIffSomeNode | apps/editor/src/components/SceneOutlinerPanel.tsx:534-539 | ids repeated or not: true exactly if some node with the dragged id has the target in its subtree |
| SceneTrees.AcceptedTargetIsOutside | apps/editor/src/components/SceneOutlinerPanel.tsx:572-595 | an accepted target lies in no subtree rooted at any node with the dragged id |
| SceneTrees.AcceptedIff | apps/editor/src/components/SceneOutlinerPanel.tsx:572-595 | with unique ids, accepted exactly if both exist, the dragged is not the root, the target is outside it and not its parent |
| SceneTrees.MoveKeepsIdsIffOutside | apps/editor/src/components/SceneOutlinerPanel.tsx:583-586 | a move loses no node exactly if the target is outside the dragged subtree |
| SceneTrees.AcceptedMoveChangesOneParent | apps/editor/src/components/SceneOutlinerPanel.tsx:572-595 | an accepted move keeps all ids and changes exactly one parent, to the target |
| SceneTrees.ParentIsTheEdge | apps/editor/src/state/store.ts:331-352 | with unique ids the parent found is the one edge to the node |
| SceneFilter.FilterKeepsSurvivors | apps/editor/src/components/SceneOutlinerPanel.tsx:663-678 | a node survives exactly if it, an ancestor or a descendant matches, in order and depth; undefined exactly if nothing matches |
| SceneFilter.AncestorsOfSurvivorsSurvive | apps/editor/src/components/SceneOutlinerPanel.tsx:652-658 | every ancestor of a survivor survives |
| SceneFilter.FilterSceneTreeIsRight | apps/editor/src/components/SceneOutlinerPanel.tsx:639-678 | for any query: a blank one keeps the tree, twice is once, the rest are the survivors |
| SceneKeys.FlattenVisibleRows | apps/editor/src/components/SceneOutlinerPanel.tsx:617-632 | the pushing loop gives the specified rows |
| SceneKeys.VisibleAreShown | apps/editor/src/components/SceneOutlinerPanel.tsx:617-632 | rows are, in preorder, exactly the nodes with no collapsed strict ancestor |
| SceneKeys.RowsAreWellPlaced | apps/editor/src/components/SceneOutlinerPanel.tsx:617-632 | after an expanded row comes its first child; every other row has its parent on an earlier expanded row |
| SceneKeys.ArrowsLandOnVisibleRows | apps/editor/src/components/SceneOutlinerPanel.tsx:307-351 | every arrow move lands on a visible row |
| SceneKeys.RightGoesToFirstChildLeftToParent | apps/editor/src/components/SceneOutlinerPanel.tsx:333-348 | right goes to the first child, left to the parent, and left stays only at the root |

## Left out

- GroupRuns.GroupIsExactlyOnce: assumes that answers carry usable ids and come while the connection holds, the exact condition for each being proved beside it; unknown outcomes, which end a group, are in `EditActor`.
- EditActor.NothingIsWrittenWhileUnsettled: holds for readers that use the history's own generation; `EditActor.StaleReaderLiftsTheBlock` says exactly that, and `BridgeRuns` that generations do not come back.
- EditActor.PassGate: the check of a stale capture (`prepare`) is one answer, yes or no; the correction cache behind it is not modelled.
- Tickets.CallersAreToldTheTruth: says nothing of group controls and discards, for which `Tickets.ToldCancelledControlIsSafeIffUnchecked` gives the condition.
- HttpWire.ResponseEndsAtItsLastByte: chunk trailers, carriage returns inside chunk data and Content-Length beside Transfer-Encoding are outside what the tracker frames; chunk sizes are any lines, a superset of the hexadecimal ones.
- Permits.AcceptedPermitHolds: a settings change half-way between updating the policy and revoking may already have changed the settings when the lease is checked; with none half-way they are proved unchanged.
- SceneTrees.AcceptedMoveChangesOneParent: the place of the moved node among its new siblings is the engine's choice; the model puts it last.
- Deleting a subtree and duplicating one: a scene object is deleted and copied alone, and siblings have no order.
- GroupLife.WorkedOffGroupRestoresScene: about one group; `StackRuns` is about a whole history.
- GroupStacks.StackIsOnTrackAgainIff: speaks of groups, ids and scenes; `StackRuns` is the same over a history and its runs.
- StackRuns.StackIsRedone: assumes, as `GroupRuns.GroupIsExactlyOnce` does, answers that are known, usable and fresh; no edit is recorded in between.
- Admissions.EveryRequestFindsAnIdleConnection: takes as given that what the handler takes for an event stream says so in its head, and that responses are sent whole.
- GroupActions.RunGroupHistoryAction: the events for the screen and the cut of the reported count to the group's size are not in the model.
- EditActor.ProcessItem: validating a permit and the write itself are parameters (permits are in `Permits`), and events are not emitted.
- EditActor.UnsettledBlocks: as `EditActor.NothingIsWrittenWhileUnsettled`.
- EditActor.OnlyRetryOrDiscardEndsPending: as `EditActor.NothingIsWrittenWhileUnsettled`.
- EditActor.OnlyRetryWritesWhilePending: as `EditActor.NothingIsWrittenWhileUnsettled`.
- HistoryStates.HistoryState.RecordSuccess: takes the record; `EditRecords` says which one an accepted answer yields.
- EditRecords.NoRecordIff: property values are equal as values; the source compares their JavaScript text.
- Authorization.McpAuthorization.UpdatePolicy: the policy half of a settings change; the revoke is the next step of the same caller in `Permits`.
- Authorization.McpAuthorization.CancelOthers: dropping entries of requests that are gone and withdrawing pending confirmations are not modelled.
- Authorization.McpAuthorization.Register: the first load of the revision is the caller's step in `Permits`; entries of requests that are gone are not dropped.
- SceneFilter.FilterSceneTreeIsRight: letter case and white space are ASCII's; `SceneFilter.FilterKeepsSurvivors` does not depend on them.
- Group time-outs: expiry is an event that may come at any time; names, creation times and history markers are not kept.
- Comparing group secrets, and JSON shapes of requests and answers: each is a parameter saying whether it matched or was usable.
- Counters that wrap (revisions, generations, sequence numbers, bytes written): unbounded numbers.
- Log buffer, log subscription and thumbnails of a connection: the subscription only succeeds or fails.
- The two-second limit on waiting for a dispatcher: a torn-down dispatcher counts as told to stop.
- Order of the "disconnected by editor" event against a later connect: it is emitted outside the lock and the source promises nothing.
- Timers, wakers and the sockets under the HTTP tracker: a deadline is a number compared with the time of a byte.
- Heads longer than 16 KiB: the buffer is cleared as in the source, and no framing is claimed for them.
- The READY handshake, job objects, stdout and arguments of the engine process: a launch is ready or fails before it has a handle.
- React state, focus and drag events: only the functions that decide are modelled.
- The queue's tickets and the item's effect on the history are two models: one says when an item may run, the other what running it does.
