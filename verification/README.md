# OpenHands: what its hardest parts keep

A Dafny 4.11 model of parts of OpenHands whose correctness does not show in any one function, and
proofs of what they keep. The groups of files are independent of each other, apart from small shared
modules (`Wrappers`, `MinMax`, `Text`).

- **The Redis lease** (`ConversationLease`, `ConversationKeys`, `LeaseSchedule`,
  `ClusteredConversationManager`): servers race on `SET key NX EX 15`, refresh the keys of their
  local loops from a pipeline that runs later, pop the loop before they delete the key, and crash. A
  state machine over clock, keys, servers and pipelines in flight, whose steps are the code between
  two awaits; the class has the fields of the source, and its methods are steps of that machine.
- **The event log** (`EventStoreSearch`, `EventStore`, `EventStream`, `EventPages`, `EventCrashes`,
  `EventExactness`, `EventStreamWriter`, `NestedEventStore`, `PaginatedSearch`): concurrent writers
  over one shared page list, readers through page files, and a remote search by moving cursors.
- **The function-call format** (`Numerals`, `FnCallFormat`, `FnCallRoundTrip`, `FnCallStopword`,
  `FnCallMessages`, `FnCallOutput`, `FnCallBack`, `FnCallScan`, `FnCallConversation`, `FnCallIds`,
  `FnCallSplit`, `FnCallSplitting`, `FnCallSplitOutcome`, `FnCallValidation`): a printer and a
  parser over strings, with the regular expressions written out as first-occurrence searches, for
  calls and for whole conversations, and the splitter of messages with several calls.
- **The agent controller** (`ControllerState`, `ControllerInvariants`, `ControllerRuns`,
  `ControllerCalls`, `ControllerOutcomes`, `ControllerProgress`, `ControllerInterleaving`,
  `ControllerRecovery`, `DroppedCall`, `AgentController`, `ReplayManager`): the slot of the pending
  action, the agent's state and the event stream, driven by any events. Other writers may add events
  before each of the controller's own writes. What the agent, the language model and the stuck
  detector answer is a parameter.
- **The stuck detector** (`StuckPatterns`, `StuckMonotone`, `StuckRecovery`, `StuckExactness`,
  `StuckLoss`, `StuckWitnesses`, `StuckDetector`): five patterns at the end of a filtered history,
  the truncation that recovery performs with them, and what it loses.
- **The token row** (`AuthTokens`, `AuthTokenStore`): any number of loads and refreshes under a row
  lock.

Where the source works by changing things step by step, the model has a class or a method with the
loop of the source, proved against a function or a state machine, and the laws are lemmas about that.
Where a promised property does not hold of the code, the code is modelled as it is, a run or an input
shows the failure, and the condition under which the property holds is proved in both directions:
the schedules that keep the lease, crashes that leave pages ahead of files, a forward `end_id` that
does not exist, reused call ids in the splitter, user messages that take the slot of a pending call,
stops that come while the agent thinks, truncation that cuts too much, aborted token refreshes.

Assumptions: serialising an event inside the stream's lock does not raise, and the lazy read of
`cur_id` is atomic; `event_to_dict` and `event_from_dict` are inverse to each other; the provider never
issues a refresh token twice; observations are caused by earlier events; other tasks set the state of an
agent only to STOPPED or ERROR (closing, and runtimes that fail); actions come without an id.

## Model

| member | source | states |
|---|---|---|
| ConversationLease.MutualExclusion | OpenHands/enterprise/server/clustered_conversation_manager.py:397-484 | In every reachable state of any number of servers, at most one is starting or running a conversation, and while one is, its key is live: through stale pipelines, crashes and the pop-then-delete order of closing. The only assumption is that no server lets 15 seconds pass between its own writes of a key. |
| ConversationLease.LeaseRunKeepsInv | OpenHands/enterprise/server/clustered_conversation_manager.py:390-484 | Over every run, each step (winning, registering, snapshot, flush, late flush of a crashed server, pop, delete, crash, clock) keeps the invariant behind the exclusion. |
| LeaseSchedule.ExclusiveIffWithinLease | OpenHands/enterprise/server/clustered_conversation_manager.py:422-484 | With starts, sleeps, flushes and deletions that take at most given times, and at most a given number of rounds of a server that fail one after the other (each is tried again without the sleep), no run breaks the exclusion if and only if start + flush + sleep + failures * (flush + sleep - 5) + max(flush, delete) is below 15 seconds; beyond that line a breaking run is built. |
| LeaseSchedule.ScheduledRunIsLeaseRun | OpenHands/enterprise/server/clustered_conversation_manager.py:422-484 | A schedule within that line, failing rounds included, keeps every server's gap between writes below the lifetime of the key, whatever the interleaving. |
| ConversationLease.WinsAndReleasesBalance | OpenHands/enterprise/server/clustered_conversation_manager.py:397-405 | Over any run, the wins of a conversation's key less its releases are exactly the change in whether the key is held: every win is of a released conversation. |
| ConversationLease.AtMostOneWinner | OpenHands/enterprise/server/clustered_conversation_manager.py:486-542 | Of any number of attempts to start a conversation between two releases, at most one wins, and none while it is held. |
| ConversationLease.KeyExpiresAfterLastWrite | OpenHands/enterprise/server/clustered_conversation_manager.py:44-45 | A key that nothing writes any more is gone 15 seconds after its last write. |
| ConversationLease.FirstAttemptAfterExpiryWins | OpenHands/enterprise/server/clustered_conversation_manager.py:712-749 | Once the key of a crashed server's conversation is gone, the first attempt to restart the conversation wins, whatever other steps came between. |
| ConversationLease.NextOwnerMayOverlapClosingAgent | OpenHands/enterprise/server/clustered_conversation_manager.py:641-669 | A run in which the next server runs a conversation while the last one has not finished session.close(): the key is deleted before the agent is shut down. |
| ConversationKeys.FlushWritesKeys | OpenHands/enterprise/server/clustered_conversation_manager.py:462-484 | A pipeline writes every key of its snapshot anew, to expire 15 seconds later, whether it is still stored or not, and leaves every other key as it is. |
| ConversationKeys.OrphanWritesKeys | OpenHands/enterprise/server/clustered_conversation_manager.py:462-484 | The same for a pipeline that arrives after its server has crashed. |
| ConversationKeys.FlushedKeyRefuses | OpenHands/enterprise/server/clustered_conversation_manager.py:397-405 | Over any run of the next 15 seconds in which c's key is not deleted, no attempt on c wins, whether anybody holds c or not. |
| ConversationKeys.LatePipelineRefusesStart | OpenHands/enterprise/server/clustered_conversation_manager.py:641-650 | A run in which a session is popped and its key deleted under a pipeline, which then stores the key again: nobody holds the conversation, and the next attempt to start it is refused. |
| ConversationKeys.StartWritesKey | OpenHands/enterprise/server/clustered_conversation_manager.py:397-405 | An attempt wins exactly when the key is absent or expired; then the winner holds the conversation and the key lasts 15 seconds, and otherwise nothing changes. |
| ConversationKeys.SnapshotIsRunning | OpenHands/enterprise/server/clustered_conversation_manager.py:436-466 | A snapshot is exactly the conversations that the server runs. |
| ConversationKeys.CrashLeavesPipeline | OpenHands/enterprise/server/clustered_conversation_manager.py:712-749 | A crash takes away the server and what it held, but not its keys, and a pipeline that it had sent may still arrive. |
| ConversationKeys.StepsArePossible | OpenHands/enterprise/server/clustered_conversation_manager.py:390-484 | Which steps are possible when: starts and crashes at any time, a round five seconds after the last one, registering, failing, popping and deleting in the phases of a session. |
| ConversationKeys.PhasesAre | OpenHands/enterprise/server/clustered_conversation_manager.py:641-669 | What registering, popping, deleting and giving up do to a session and its key. |
| ConversationKeys.OtherStepsLeaveKeys | OpenHands/enterprise/server/clustered_conversation_manager.py:390-484 | Only attempts to start, pipelines and deletions change keys, and a deletion only its own. |
| ClusteredConversationManager.ConversationManager.MaybeStartAgentLoop | OpenHands/enterprise/server/clustered_conversation_manager.py:390-405 | The method is the protocol's attempt to start: it reports a new loop exactly when the key was free. |
| ClusteredConversationManager.ConversationManager.RegisterSession | OpenHands/enterprise/server/clustered_conversation_manager.py:486-542 | A started loop is put into the local dictionary. |
| ClusteredConversationManager.ConversationManager.FillPipeline | OpenHands/enterprise/server/clustered_conversation_manager.py:436-466 | The loop over the local dictionary takes the snapshot that the protocol takes. |
| ClusteredConversationManager.ConversationManager.ExecutePipeline | OpenHands/enterprise/server/clustered_conversation_manager.py:483-484 | Executing the pipeline, command by command, is the protocol's flush: it re-writes every key of the snapshot, also of sessions popped since. |
| ClusteredConversationManager.ConversationManager.PopAgentLoop | OpenHands/enterprise/server/clustered_conversation_manager.py:641-647 | Closing pops the loop first, and leaves the key. |
| ClusteredConversationManager.ConversationManager.DeleteConversationKey | OpenHands/enterprise/server/clustered_conversation_manager.py:649-650 | Closing deletes the key second. |
| ClusteredConversationManager.ConversationManager.PartIsLocal | OpenHands/enterprise/server/clustered_conversation_manager.py:390-484 | Over any steps of other servers, pipelines of crashed ones and the clock, the fields stay this server's part of the protocol state, so the methods may be called in any later state. |
| EventStoreSearch.ReverseSearchReverses | OpenHands/openhands/events/event_store.py:105-136 | An unlimited reverse search is the reversal of the forward one, for every range and filter. |
| EventStoreSearch.LimitedReverseSearchIsLast | OpenHands/openhands/events/event_store.py:110-136 | A reverse search limited to n gives the last n matches of the forward one, newest first. |
| EventStore.EventStore.CalculateCurId | OpenHands/openhands/events/event_store.py:65-83 | The next id is above every stored id and is the least such number, whatever the order of the listing. |
| EventStore.EventStore.SearchEvents | OpenHands/openhands/events/event_store.py:85-136 | With any set of valid page files present or missing, the search through the cache yields exactly what the scan of the event files yields: the first matches of the id range, in order, up to the limit. |
| EventStore.EventStore.SearchRange | OpenHands/openhands/events/event_store.py:118-136 | The loop with its current page equals the naive scan, in both directions. |
| EventStore.EventStore.ReadEvent | OpenHands/openhands/events/event_store.py:25-37 | An index read through whole pages is the entry of its page if there is one, and the event file otherwise; with valid pages that is the event file, or nothing if there is none. |
| EventExactness.SearchIsExact | OpenHands/openhands/events/event_store.py:85-136 | An unlimited forward search yields exactly the stored events of the range that the filter includes, in the order of their ids. |
| EventExactness.LimitIsPrefix | OpenHands/openhands/events/event_store.py:131-136 | A limited search yields the first events of the unlimited one: as many as the limit says, all if it is zero, one if it is negative. |
| EventStream.NoEventFileOverwritten | OpenHands/openhands/events/stream.py:170-199 | Over all runs of concurrent calls, crashes and reopenings (one live stream at a time), writing an event file never overwrites one, and the id handed out next is above every stored id. |
| EventStream.EventFilesArePermanent | OpenHands/openhands/events/stream.py:190-199 | A stored event stays as it is in every later state. |
| EventStream.IdsAreConsecutive | OpenHands/openhands/events/stream.py:170-172 | Within one stream the ids handed out are consecutive, hence distinct and increasing, under any interleaving. |
| EventPages.PagesAgreeWithEvents | OpenHands/openhands/events/stream.py:170-213 | Under every interleaving of add_event calls and quiescent reopenings, each page file holds exactly the events issued for ids start to end-1, each at index id - start; when no call is in progress the pages agree with the event files. |
| EventPages.FullPagesAreFrozen | OpenHands/openhands/events/stream.py:174-185 | A full page list never changes, and storing it again writes the same contents. |
| EventExactness.FullPagesAreStored | OpenHands/openhands/events/stream.py:182-213 | Over every run without a crash, once no call is in progress, every page list that is full has been stored, under the id of its first event. |
| EventExactness.AddedEventIs | OpenHands/openhands/events/stream.py:170-203 | A call that nothing interrupts stores its event under the id it was given, and changes no other file. |
| EventExactness.StepsArePossible | OpenHands/openhands/events/stream.py:163-203 | Which steps are possible when: a call appends under the id that cur_id yields, writes its file, then stores its page; crashes at any time, reopening once no call is in progress. |
| EventPages.CrashAgreesIffSafe | OpenHands/openhands/events/stream.py:198-213 | A crash leaves a stored page in agreement with the event files if and only if no call in progress still has to write the file of one of its events; all pages, if and only if no call is late for any. |
| EventPages.PageMayPrecedeItsFile | OpenHands/openhands/events/stream.py:198-213 | A run in which a page is stored before the file of one of its events, so that a crash there breaks the agreement. |
| EventCrashes.StoredPagesArePermanent | OpenHands/openhands/events/stream.py:198-213 | Over every run, with crashes at any moment, a stored page is never changed again. |
| EventCrashes.LostEventIsReadForGood | OpenHands/openhands/events/stream.py:170-213 | If the process crashes while a call is late for a page that readers ask for, the event has no file, and a reader of the page is given it for ever, over any further run; the ids handed out start again at its id or below, or, if a later event has a file, it never has one. |
| EventCrashes.LostEventShadowsItsSuccessor | OpenHands/openhands/events/stream.py:198-213 | A run in which the id of a lost event is handed out again: the new event is filed, and readers are still given the lost one. |
| EventPages.ReopeningOverACallOverwrites | OpenHands/openhands/events/stream.py:170-199 | A run in which a stream is reopened while a call is in progress and an event file is overwritten: quiescence is needed. |
| EventStreamWriter.EventStream.AddEvent | OpenHands/openhands/events/stream.py:163-203 | The method with its shared, mutable page list is the protocol's append, file write and page store, and refuses an event that already has an id. |
| EventStreamWriter.EventStream.AppendLocked | OpenHands/openhands/events/stream.py:170-185 | The locked part hands out the next id, appends to the shared list and swaps it when it is full. |
| NestedEventStore.SearchEvents | OpenHands/openhands/events/nested_event_store.py:23-85 | Against a server that answers with any non-empty in-order windows and a truthful has_more, for a limit of at least 1 or none, the cursor loop yields exactly the matches up to end_id and the limit, without duplicates or gaps, in both directions, and terminates. |
| NestedEventStore.CursorAsksForRest | OpenHands/openhands/events/nested_event_store.py:77-82 | After any number of events the moved cursor asks for exactly the events not yet seen. |
| NestedEventStore.RangeIsMatching | OpenHands/openhands/events/nested_event_store.py:35-44 | In a store ordered by id, a bounded request is a slice. |
| EventExactness.UpToIs | OpenHands/openhands/events/nested_event_store.py:65-68 | What the paginated search sees is the events up to the first one with end_id, that one included, or all if there is none. |
| PaginatedSearch.PaginationRefinesSearch | OpenHands/openhands/events/nested_event_store.py:23-85 | Without end_id the paginated search returns what the direct search of the same store returns, for every start, direction and filter, and for every limit of at least 1 or none. |
| PaginatedSearch.PaginationRefinesBoundedSearch | OpenHands/openhands/events/nested_event_store.py:65-68 | The same forward, for an end_id that exists at or after the start. |
| PaginatedSearch.BoundedSearchesAgreeIff | OpenHands/openhands/events/nested_event_store.py:65-68 | For a forward end_id the two searches agree for all filters and limits if and only if the event exists at or after the start, or no stored event from the start on is behind it: the pagination stops only at the event itself. |
| PaginatedSearch.RouteAnswersWithWindow | OpenHands/openhands/server/routes/conversation.py:204-267 | The /events route answers every request the client makes with such a window: all that is available, or as much of it as was asked for. |
| PaginatedSearch.ZeroLimitGetsNothing | OpenHands/openhands/server/routes/conversation.py:232-267 | Asked for no events, the route gives none and says that there are more whenever there is one: a client with limit 0 asks for the same again for ever. |
| FnCallFormat.ConvertToolCallToString | OpenHands/openhands/llm/fn_call_converter.py:405-436 | The loop prints the call that the grammar of the format prescribes. |
| FnCallFormat.ExtractAndValidateParams | OpenHands/openhands/llm/fn_call_converter.py:622-695 | The validation loop, with all its refusals in their order. |
| FnCallValidation.AcceptedIff | OpenHands/openhands/llm/fn_call_converter.py:648-695 | For any parameters, whoever wrote them: they are accepted if and only if each text is valid and every required one is given, and then each name has the value of its last text. |
| FnCallValidation.ParseValueIs | OpenHands/openhands/llm/fn_call_converter.py:648-683 | Which texts are valid for a parameter (declared, reading as a value of its type, and one of its options), as which values they are read, and what is wrong with any other. |
| FnCallValidation.RefusedFor | OpenHands/openhands/llm/fn_call_converter.py:643-695 | Refused parameters are refused for the first text that is not valid, or, if all are, for exactly the required parameters that were not given. |
| Numerals.ParseIntIff | OpenHands/openhands/llm/fn_call_converter.py:658-665 | An integer is a sign or none and digits with single underscores between them, with white space around it; and its value. |
| Numerals.NumeralValue | OpenHands/openhands/llm/fn_call_converter.py:658-665 | One more digit, behind an underscore or not, counts ten times what was before it. |
| Numerals.IntRoundTrip | OpenHands/openhands/llm/fn_call_converter.py:431-431 | Every integer printed is read back as itself. |
| Numerals.IntListRoundTrip | OpenHands/openhands/llm/fn_call_converter.py:428-429 | Every list of integers printed as JSON is read back as itself. |
| FnCallRoundTrip.NormalizeIsIdentity | OpenHands/openhands/llm/fn_call_converter.py:708-724 | The repair of malformed parameter tags changes nothing in what the printer emits for marker-free values, whatever marker-free text follows. |
| FnCallRoundTrip.MalformedIsRepaired | OpenHands/openhands/llm/fn_call_converter.py:708-724 | If any of the parameters of a printed call are written in the malformed form, the repair restores the printed text. |
| FnCallRoundTrip.ParamsAreMatched | OpenHands/openhands/llm/fn_call_converter.py:398-399 | The parameters found in printed text are exactly the printed ones, in order. |
| FnCallRoundTrip.CallReadsBack | OpenHands/openhands/llm/fn_call_converter.py:405-436 | A printed call is accepted if and only if no required parameter is missing and the enums hold what is read back, and then it is read back as the same call: same name, integers, arrays and single-line strings; a multi-line string gains the two line breaks around it. |
| FnCallStopword.StopwordRepairIsTransparent | OpenHands/openhands/llm/fn_call_converter.py:698-705 | Cutting a printed call anywhere in its closing tag and repairing it gives the same call, refused in the same cases, behind any text that opens no call. |
| FnCallStopword.CallIsFound | OpenHands/openhands/llm/fn_call_converter.py:398-398 | The search finds the first call behind any text that opens none, with its whole body. |
| FnCallMessages.ConvertToNonFnCallMessages | OpenHands/openhands/llm/fn_call_converter.py:478-619 | The loop over messages is the message-wise conversion, with the refusal of messages that have not exactly one call. |
| FnCallMessages.ConvertToFnCallMessages | OpenHands/openhands/llm/fn_call_converter.py:727-930 | The loop back, with its counter, is the message-wise conversion, with the refusals of unknown functions and bad parameters. |
| FnCallOutput.OutputIs | OpenHands/openhands/llm/fn_call_converter.py:490-619 | What each message becomes, written out: example, text, header and closing for the first message of the user if the example is on and not empty, and no change for the others; the suffix behind a system message; the call behind the text of the assistant; the prefix line of a result, as the user. |
| FnCallOutput.ConvertsIff | OpenHands/openhands/llm/fn_call_converter.py:562-570 | The conversion fails exactly if some message has calls, but not exactly one. |
| FnCallOutput.CallIsShown | OpenHands/openhands/llm/fn_call_converter.py:405-436 | The printed call, written out, with line breaks inside the tags exactly around strings of several lines. |
| FnCallBack.BackIs | OpenHands/openhands/llm/fn_call_converter.py:742-930 | What each message comes back as, whoever wrote it: a system message up to the suffix; a message of the user, without the example if it is the first, or the first result in it; a message of the assistant, or its first call with the stripped text before the opening and the values of its parameters. |
| FnCallBack.FailsIff | OpenHands/openhands/llm/fn_call_converter.py:882-895 | The conversion back fails exactly if the first call of some message of the assistant is of a tool that is not there, or has parameters that are not good for it. |
| FnCallBack.FixStopwordIs | OpenHands/openhands/llm/fn_call_converter.py:698-705 | A text that opens exactly one call is closed: a half-written closing tag is completed, and otherwise a whole one added. |
| FnCallBack.FixStopwordLeaves | OpenHands/openhands/llm/fn_call_converter.py:698-705 | Any other text is left alone. |
| FnCallBack.MatchHereIff | OpenHands/openhands/llm/fn_call_converter.py:398-398 | Where a call begins: its opening, a name of at least one character up to the first bracket, a line break right behind it, and a closing tag somewhere after that. |
| FnCallScan.ParamIsFound | OpenHands/openhands/llm/fn_call_converter.py:399-399 | In any text, the first opening with a name up to the first bracket and a closing tag somewhere behind it is a parameter, with the text up to the first closing tag, whatever stands before it; and the search goes on behind that tag. |
| FnCallScan.NoParamIsFound | OpenHands/openhands/llm/fn_call_converter.py:399-399 | A text without such an opening has no parameter. |
| FnCallScan.MalformedIsCorrected | OpenHands/openhands/llm/fn_call_converter.py:720-724 | In any text, the first opening with a word, an equals sign and a closing tag before any other tag is given its bracket; what stands before it is left alone, and the repair goes on behind it. |
| FnCallScan.OthersAreLeft | OpenHands/openhands/llm/fn_call_converter.py:720-724 | A text without such an opening is left alone. |
| FnCallConversation.ConversationReturns | OpenHands/openhands/llm/fn_call_converter.py:478-619 | Converting a well-formed conversation and converting it back gives the same roles, texts (up to white space around calls and results), function names and arguments, and the new ids. |
| FnCallConversation.ExampleIsRemoved | OpenHands/openhands/llm/fn_call_converter.py:759-771 | The example and the closing text put around the first user message are removed again, and no other user message is touched. |
| FnCallConversation.HeadersInUse | OpenHands/openhands/llm/fn_call_converter.py:30-392 | The headers in use are what the conversation law asks of headers: a line break and one line of text. |
| FnCallIds.CallIdsAreDistinct | OpenHands/openhands/llm/fn_call_converter.py:897-904 | Whatever is converted, the calls get pairwise distinct ids. |
| FnCallIds.IdsCountCalls | OpenHands/openhands/llm/fn_call_converter.py:828-904 | The ids count the calls in two digits or more: a call has the next number, a result that of the last call. |
| FnCallIds.ResultsCarryLatestCall | OpenHands/openhands/llm/fn_call_converter.py:828-841 | Whatever is converted, a result has the id of a call if and only if that call is the latest one before it. |
| FnCallSplit.ConvertToSingleToolCallMessages | OpenHands/openhands/llm/fn_call_converter.py:933-976 | The loop with its pending map is the step-wise splitting, with its three refusals. |
| FnCallSplitting.SplitConserves | OpenHands/openhands/llm/fn_call_converter.py:933-976 | A successful split keeps the messages without calls in order; and it keeps the bag of calls, each with the text it takes (the message's text once, on the first call), if and only if no id is used again while its call is pending. |
| FnCallSplitting.ReusedIdLosesCall | OpenHands/openhands/llm/fn_call_converter.py:944-961 | Of two calls of one message with the same id, followed by a result, the first call and the text of the message are lost, and nothing is refused. |
| FnCallSplitting.FreshAllIsDistinct | OpenHands/openhands/llm/fn_call_converter.py:944-951 | The ids of one message are fresh exactly when they are distinct and none is pending. |
| FnCallSplitting.SplitShape | OpenHands/openhands/llm/fn_call_converter.py:954-961 | No message of the output has more than one call, and each call that was split off stands right before its result. |
| FnCallSplitting.SplitIsIdempotent | OpenHands/openhands/llm/fn_call_converter.py:933-976 | The output is a fixed point. |
| FnCallSplitOutcome.SplitsIff | OpenHands/openhands/llm/fn_call_converter.py:941-975 | A conversation is split if and only if every result answers an open call or comes when none is open, every other message of a system or user comes when none is, and none is open at the end (unless that is ignored); a call is open from a message with two calls or more to its result. |
| FnCallSplitOutcome.OutputComesFrom | OpenHands/openhands/llm/fn_call_converter.py:938-976 | Every message of the output is one of the input that does not have several calls, or one call of a message with several, with the text of that message exactly if it is the first of its calls. |
| ControllerRuns.SlotIsEmptyWhenStopped | OpenHands/openhands/controller/agent_controller.py:666-704 | Over every run, with any events from the user, the runtime and the agent: an action is pending only while the state is neither STOPPED nor ERROR; it is the event on the stream with its id; and the agent's history is on the stream. |
| ControllerInterleaving.SlotIsEmptyIff | OpenHands/openhands/controller/agent_controller.py:870-1034 | Over every run in which other tasks may stop or fail the agent in the middle of any step, before its action takes the slot and again before the action is on the stream: the slot is empty whenever the state is STOPPED or ERROR if and only if no step is outrun, that is, no runnable action that asks for no confirmation comes from an agent stopped or failed while it thought, with no different change after that. |
| ControllerInterleaving.ActOverIff | OpenHands/openhands/controller/agent_controller.py:978-1034 | The same for one action, with the exact state it leaves; and every runnable action that is put on the stream is pending then, or an observation with its metadata is on the stream. |
| ControllerInterleaving.StopIsUndoneIff | OpenHands/openhands/controller/agent_controller.py:1024-1029 | A stop or failure while the agent thinks is undone by the step if and only if its action asks for confirmation and nothing stops the agent again before the action is on the stream, or its call failed and will be retried. |
| ControllerInterleaving.ClosingIsOutrun | OpenHands/openhands/controller/agent_controller.py:275-283 | Closing while the agent thinks: its command takes the slot of the stopped agent, nothing acknowledges it, and closing again changes nothing. |
| ControllerInterleaving.UndisturbedStepIsStep | OpenHands/openhands/controller/agent_controller.py:870-1034 | With nothing in between, the step in parts is the step of the state machine. |
| ControllerRuns.StepKeeps | OpenHands/openhands/controller/agent_controller.py:870-1034 | A step changes something only when the agent is running and the slot is empty, and a runnable action it puts on the stream takes the slot under its new id. |
| ControllerOutcomes.CommandAsksIff | OpenHands/openhands/controller/agent_controller.py:980-1034 | A command of a running agent that does not ask yet is made to ask, and waited for in AWAITING_USER_CONFIRMATION, if and only if confirmation mode is on and the command line asks, or the controller's mode is on and the risk is high or there is no analyzer; otherwise the agent goes on with the command as it gave it. |
| ControllerOutcomes.AskingCommandWaits | OpenHands/openhands/controller/agent_controller.py:1024-1034 | A command that asks already is waited for in every configuration. |
| ControllerOutcomes.OtherActionsGoOn | OpenHands/openhands/controller/agent_controller.py:978-1034 | No other action asks: a runnable one is waited for, any other only put on the stream, and the empty one not. |
| ControllerOutcomes.FailuresAre | OpenHands/openhands/controller/agent_controller.py:896-976 | Where a step leaves an agent that is stuck, raises, gives no action or exceeds its context, and what it puts on the stream. |
| ControllerOutcomes.HandledActionIs | OpenHands/openhands/controller/agent_controller.py:507-604 | For each action that is handled: what the agent sees of it, the state it is left in, and what is pending. |
| ControllerOutcomes.HandledObservationIs | OpenHands/openhands/controller/agent_controller.py:536-563 | An observation vacates the slot exactly if what is pending caused it and no confirmation is awaited; and the state it leaves. |
| ControllerOutcomes.EventTriggersStep | OpenHands/openhands/controller/agent_controller.py:406-445 | After which events the agent steps. |
| ControllerOutcomes.DecisionIsReissued | OpenHands/openhands/controller/agent_controller.py:690-704 | What is put on the stream again when the user decides: a command with the decision in it, anything else as it was, as an action of the agent. |
| ControllerOutcomes.StoppingAnswers | OpenHands/openhands/controller/agent_controller.py:625-664 | Stopping or failing with an action pending that the history does not answer puts an error of the agent's on the stream, with the metadata and as the effect of that action. |
| ControllerRuns.StaleObservationKeepsSlot | OpenHands/openhands/controller/agent_controller.py:553-563 | From then on, for the rest of any run, no observation caused by an earlier event vacates the slot; whatever vacates it was caused by the pending event and came after it. |
| ControllerCalls.CallIsDroppedIff | OpenHands/openhands/controller/agent_controller.py:594-604 | A pending tool call loses the slot without an answer on the stream only if a message of the user (or a restart with the last one) is handled while the call is pending and no answer is on the stream yet; and whenever that happens it is dropped, unless an observation arrives in the middle of that very move. Stopping or failing never drops one. |
| ControllerCalls.CallsAreAnswered | OpenHands/openhands/controller/agent_controller.py:553-563 | Over every run that no user message interrupts, each call that was ever pending is still pending or has an answer on the stream: an observation that carries its metadata or was caused by an action for it. |
| ControllerCalls.ActionsAreAcknowledged | OpenHands/openhands/controller/agent_controller.py:625-664 | Over every run in which no user message interrupts a pending action and no observation answers it without its tool-call metadata, every action that was ever pending is still pending or an observation with its metadata is on the stream; and if the agent has stopped or failed, the latter. |
| ControllerProgress.UserMessageIsActedOn | OpenHands/openhands/controller/agent_controller.py:406-445 | A message of the user, handled in any state, sets the agent running with its retrieval pending; over any run without another user message, change of state, loop recovery or answer both stay so; and in the move that handles the answer, the agent's action (whatever its risk) goes on the stream and takes the slot. |
| ControllerProgress.ConfirmationIsAwaited | OpenHands/openhands/controller/agent_controller.py:553-563 | Over any such run an action that awaits confirmation stays pending, answers to it notwithstanding; the user's decision puts the same call on the stream under a new id, which stays pending over any such run; and the answer to that lets the agent's next action take the slot if the user confirmed, or makes the agent wait for the user if not. |
| ControllerInvariants.ResetKeeps | OpenHands/openhands/controller/agent_controller.py:625-664 | Resetting empties the slot, and an observation with the pending action's tool-call metadata is on the stream then, whatever action was pending. |
| ControllerInvariants.SetAgentStateKeeps | OpenHands/openhands/controller/agent_controller.py:666-704 | A change to STOPPED or ERROR empties the slot and leaves an observation with the pending action's metadata; any other keeps what is pending, a confirmed or rejected action under its new id. |
| DroppedCall.UserMessageDropsCall | OpenHands/openhands/controller/agent_controller.py:594-604 | A run from a fresh start in which a user message makes the controller drop a tool call. |
| AgentController.AgentController.SetAgentStateTo | OpenHands/openhands/controller/agent_controller.py:666-704 | The method is the state machine's change of state, with its reset, reissue and notification in order. |
| AgentController.AgentController.ResetPending | OpenHands/openhands/controller/agent_controller.py:625-664 | The method with its search of the history. |
| AgentController.AgentController.TakeStep | OpenHands/openhands/controller/agent_controller.py:870-1034 | The method is the state machine's step. |
| AgentController.AgentController.OnNextEvent | OpenHands/openhands/controller/agent_controller.py:481-505 | The method notes the event, handles it and steps if it should. |
| AgentController.AgentController.RestartWithMessage | OpenHands/openhands/controller/agent_controller.py:1347-1388 | Loop recovery with the last user message, with its search from the end and its fallback. |
| ControllerRecovery.LoopRecoveryIs | OpenHands/openhands/controller/agent_controller.py:605-623 | The three options: 1 and 2 keep the first events of the history up to the start of the loop, and leave the agent waiting for the user, or running with the retrieval for the last user message pending; 3 stops it; any other option, or no analysis, changes nothing. |
| ControllerRecovery.RestartIs | OpenHands/openhands/controller/agent_controller.py:1347-1388 | The same for restarting with the last user message, and its fallback if there is none. |
| ControllerRecovery.RecoveryFreesHistory | OpenHands/openhands/controller/agent_controller.py:1302-1345 | From the step that finds the agent stuck to the recovery, whatever comes in between if no other step begins: what is left is exactly the history before the reported start, shorter than it was, with none of the events that the loop repeats. |
| ReplayManager.ReplayIsFaithful | OpenHands/openhands/controller/replay.py:23-80 | The replay plays exactly the actions of the trajectory that the environment did not issue, in order, once each; none waits for a response, except that the last one is played as it is if nothing that counts comes behind it. |
| ReplayManager.SelectedIs | OpenHands/openhands/controller/replay.py:23-33 | An event is selected if it is an action that the environment did not issue, and the selection of a trajectory is that of its parts, in order. |
| ReplayManager.ReplayAll | OpenHands/openhands/controller/replay.py:59-80 | Alternating should_replay and step returns those actions, and however often it is asked afterwards, nothing is left. |
| ReplayManager.ReplayManager.ShouldReplay | OpenHands/openhands/controller/replay.py:59-73 | Asking skips what is not an action, terminates, and does not change what is left to replay. |
| ReplayManager.ReplayManager.Step | OpenHands/openhands/controller/replay.py:75-80 | A step takes exactly the next action that is left. |
| StuckMonotone.StuckAfterAnything | OpenHands/openhands/controller/stuck.py:38-131 | If a history is stuck it is stuck after any events put before it, in both modes, across all five scenarios. |
| StuckMonotone.InteractiveImpliesHeadless | OpenHands/openhands/controller/stuck.py:52-67 | A history that is stuck in interactive mode is stuck in headless mode. |
| StuckExactness.FoundIff | OpenHands/openhands/controller/stuck.py:38-131 | A loop of a type is reported, with its count, exactly when it is the first that shows in the events looked at: command outputs compared by command and exit code, edits by their first three lines, reports of a cell by their lines, anything else as a whole. |
| StuckExactness.LookedAre | OpenHands/openhands/controller/stuck.py:48-67 | The events looked at are exactly those that are neither messages of the user nor empty, in interactive mode behind the last message of the user. |
| StuckExactness.LookedInOrder | OpenHands/openhands/controller/stuck.py:48-67 | They are looked at in their order. |
| StuckExactness.DifferentOutputsExclude | OpenHands/openhands/controller/stuck.py:472-478 | If two of the last four observations are command outputs that differ in command or exit code, the same action with the same observation is not what is found. |
| StuckWitnesses.FourRunsAreStuckIff | OpenHands/openhands/controller/stuck.py:472-478 | The same command four times is a loop if and only if its exit codes agree, whatever the process ids are. |
| Text.SplitIs | OpenHands/openhands/controller/stuck.py:247-247 | The lines of a text are what stands between its line breaks. |
| StuckRecovery.RecoveryRemovesLoop | OpenHands/openhands/controller/agent_controller.py:1324-1342 | For every scenario, the reported start is at most the raw index of each repeated action, message or condensation, so truncating there leaves a proper prefix with none of them. |
| StuckLoss.RecoveryIsExactIff | OpenHands/openhands/controller/stuck.py:133-237 | For each type of loop, from the history alone: the truncation keeps everything before the loop if and only if no event before it is filtered out and, for the loops of actions, none before it equals its first action; a loop of errors must besides be found with three actions only, as the fourth from the end is looked up otherwise. |
| StuckLoss.EventsLost | OpenHands/openhands/controller/agent_controller.py:1324-1342 | How many events before the loop are lost: those filtered out before it, and those from the event that is looked up to the loop. |
| StuckLoss.UserMessagesCostEvents | OpenHands/openhands/controller/stuck.py:52-67 | In headless mode, in a history without null events, where nothing else makes the cut unclean, the events lost are as many as the messages of the user before the loop. |
| StuckWitnesses.AnotherActionIsLost | OpenHands/openhands/controller/stuck.py:173-190 | A history in which the same action fails three times after another action that succeeded: the other one and its observation are cut off as well. |
| StuckWitnesses.RequestIsLost | OpenHands/openhands/controller/stuck.py:52-67 | A history in which a request of the user right before the loop is cut off in headless mode. |
| StuckRecovery.CondensationLoopIff | OpenHands/openhands/controller/stuck.py:402-455 | The fifth scenario holds if and only if two of the last ten condensations are next to each other: one such pair is enough, where its documentation speaks of ten in a row. |
| StuckRecovery.ShortEditsAreNotFound | OpenHands/openhands/controller/stuck.py:457-470 | The comparison is not reflexive on short edit cells: an agent that repeats one is never found to repeat an action. |
| StuckRecovery.NoneBetween | OpenHands/openhands/controller/stuck.py:418-442 | All events of a kind are collected: none lies between two neighbours. |
| StuckDetector.StuckDetector.CheckStuck | OpenHands/openhands/controller/stuck.py:38-131 | The method with its loops finds what the five patterns say, in their order, and reports their start; with less than three events to look at it leaves the analysis of an earlier call in place. |
| StuckDetector.CollectLast | OpenHands/openhands/controller/stuck.py:84-97 | The scan from the end with its early exit collects exactly the last actions and the last observations. |
| StuckDetector.CheckForConsistentInvalidSyntax | OpenHands/openhands/controller/stuck.py:239-280 | The loop over three reports finds the same syntax error three times. |
| StuckDetector.CheckForConsistentLineError | OpenHands/openhands/controller/stuck.py:282-309 | The loop over three reports finds the same unterminated string three times. |
| AuthTokens.RefreshTokensAreSpentOnce | OpenHands/enterprise/storage/auth_token_store.py:99-156 | Over every interleaving of calls on one row, if every refresh is committed and no spent token is stored again, no refresh token is spent twice, and between refreshes the row is the newest pair issued. |
| AuthTokens.SpentOnceIff | OpenHands/enterprise/storage/auth_token_store.py:99-156 | Over every run, no refresh token is spent twice if and only if no call refreshes while the row holds the token of an aborted refresh, or one stored again. |
| AuthTokens.RowIsNewestIff | OpenHands/enterprise/storage/auth_token_store.py:130-146 | Between refreshes the row is the newest pair if and only if no refresh was aborted since the last time a pair was stored. |
| AuthTokens.AbortedRefreshSpendsTwice | OpenHands/enterprise/storage/auth_token_store.py:118-146 | A call that ends between the refresh and the commit makes the next call spend the same token again. |
| AuthTokenStore.AuthTokenStore.LoadTokens | OpenHands/enterprise/storage/auth_token_store.py:69-156 | The method returns what the row then holds; it spends the refresh token and stores the new pair exactly when it is to check, the access token expires within four hours and the refresh token has not expired; and it fails exactly when the access token does and the refresh token has expired or the provider refuses. |
| AuthTokenStore.CheckIs | OpenHands/enterprise/server/auth/token_manager.py:296-316 | The times at which a pair is still valid, must be refreshed, or has expired; 0 means never. |
| AuthTokenStore.LoadIsRun | OpenHands/enterprise/storage/auth_token_store.py:69-156 | A call that runs to its end is a run of the protocol that commits its refresh. |
| AuthTokenStore.AuthTokenStore.StoreTokens | OpenHands/enterprise/storage/auth_token_store.py:26-67 | Storing a pair replaces the row. |
| AuthTokenStore.AuthTokenStore.IsAccessTokenValid | OpenHands/enterprise/storage/auth_token_store.py:158-180 | Asking whether the access token is valid changes nothing, and says whether it lasts more than 30 seconds. |

## Left out

- Redis, socketio, HTTP, SQLAlchemy and the file system: maps, sequences and atomic steps instead.
- Connection keys, the pairing of conversations with users in key names, `max_concurrent_conversations` and the clean-up of stale local sessions.
- `NestedEventStore` reverse search with `end_id`, whose meaning differs from that of `EventStore`; a server that answers 404 half-way.
- NestedEventStore.SearchEvents: a `limit` below 1. With 0 the source asks for ever (PaginatedSearch.ZeroLimitGetsNothing); the route refuses a negative one, and the client then fails on the missing key.
- The filter parameter of the events route, which the client never sends.
- Subscriber queues and thread pools of the event stream, secret replacement in stored events.
- Message contents that are lists of parts, contents that are missing, cache-control marks; texts are strings.
- FnCallFormat.ExtractAndValidateParams: argument values other than strings, integers and lists of integers; `json.loads` accepts more texts as arrays than the model's lists of integers, and `int` accepts non-ASCII digits.
- `convert_tools_to_description` and the text of the in-context examples: parameters of the conversation laws.
- FnCallRoundTrip.CallReadsBack: names contain none of the characters `<`, `>` and `=`, and string values none of the four markers; outside that the format is ambiguous.
- Delegates of the controller; the system message; metrics, budgets and iteration limits beyond the fact that they can end a step; saving the state; closing beyond setting the state to STOPPED.
- ControllerRuns.SlotIsEmptyWhenStopped: moves are atomic there; ControllerInterleaving lets other tasks stop or fail the agent in the middle of a step, but each change of state and the handling of an event before the step stay atomic.
- Exceptions that `add_event` or saving the state may raise in the middle of a handler.
- ReplayManager.ReplayManager.constructor: the source clears `wait_for_response` in the caller's event objects; the model replaces the events it keeps, so that aliasing is not captured.
- `attempt_loop_recovery`, which only adds two events.
- AuthTokens.RowIsNewestIff: `store_tokens` reads the row without the lock before its update waits for it; the model takes the update as one step, and counts a stored pair as issued when it is stored.
- Encryption of tokens, authorisation, JWT and cookies.
- The remaining integrations, settings, user interface and evaluation code.
