# Verification of the agent runtime

This project models, in Dafny 4.11, the part of the product that runs one agent: the engine that keeps
a growing conversation inside a model's context window, the translator and reducers that turn a stream
of events into one chat cell, the two-way RPC between the runtime and its host, the lenient reader of
tool calls a model wrote as text, and the triplet decoder and the edit distance of the document
tools. It proves what those parts keep over every input and every run.

Check it with `dafny verify dfyconfig.toml`.

## How it is laid out

An operation that changes state in place is a class or a method with its loops. It is proved equal to a
function of its inputs and of its old state, and what the system promises is proved of that function,
over single calls and over whole runs.

- `Text`, `Json`, `JsonSound`: strings, JSON texts with every way RFC 8259 lets a value be written, and a
  reader that accepts exactly those.
- `Messages`, `Pruning`, `Ceiling`, `Compactor`, `CompactorRuns`: the context engine. A run is a sequence of
  turns; cut points, the summariser's answers and failures, and the estimator are arbitrary.
- `ToolNames`, `Notes`, `NotesRuns`, `NoteTaking`: the bounded working notes, what reloads and restarts do
  to them, and what is written into them from tool results.
- `ToolProse`, `ToolSizes`, `ToolBudget`: fitting the tool catalogue into what the window leaves.
- `ContextEntities`, `ContextLedger`: the meter, its rows, and the order in which things would go.
- `Translator`, `TranslatorRuns`, `Reducer`, `ReducerRuns`: streaming, from loop events to the cell's text.
- `Protocol`, `Peer`, `PeerRuns`: frames over a pipe, and two peers as a step system.
- `Repair`, `RepairProofs`, `RepairCalls`, `RepairRoundTrip`: the brace scanner, the lenient reader, and
  messages read back as the calls they were written from.
- `Levenshtein`, `Triplets`, `TripletText`: the algorithms of the document tools.

## Where the code and its comments differ

The model follows the code.

- `agent-runtime/src/peer.ts` (149-157) says replies are written outside the handler's guard. The write of a
  result is inside it (213-215), so a result that cannot be written is answered as an internal error.
- `FrameDecoder` (`agent-runtime/src/protocol.ts`, 127-135) measures the whole buffer, not a line:
  `Protocol.LimitIsOnTheBuffer`, and `Protocol.OverrunsIff` for when a push overruns.
- The ceiling notice counts every message over its share as shortened, also one without text to shorten:
  `Ceiling.CuttingMayNotFit`. When one comes out as it was is `Ceiling.CountedUnchangedIff`.
- Coverage is not monotone: aligning a cut back can take it to 0, and a summary that covers nothing is not
  sent: `CompactorRuns.CoverageGrowsIff`, and `CompactorRuns.RunCanMoveBack` for a run of two turns.
- Reasoning still buffered is lost when an assistant message opens over an open block:
  `TranslatorRuns.ReasoningDroppedIff`, and `TranslatorRuns.ReasoningCanBeDropped` for such a run.
- The registry asks for the run id first, so an envelope that names one run's message under another registered
  run's id reaches neither cell: `ReducerRuns.NamedButLostIff`, `ReducerRuns.NamedCanBeLost`.
- `plan_ready` is said to teach a reducer the server's run id. The registry hands a plan only to the reducer
  registered under the envelope's own run id, so it can teach it no id but the caller's:
  `ReducerRuns.PlanTeachesOnlyTheCallersId`.
- Text that follows the end of a cell is shown and is not part of what was handed over:
  `ReducerRuns.RunFinalIsWholeIff`, and `ReducerRuns.FinalCanBePartial` for such a run.
- `LIVE_REASONING_LIMIT` is given as the longest reasoning kept. The separator of a block that opens is not
  trimmed, so the panel can be longer, and not marked as trimmed: `ReducerRuns.PanelIsThisLarge` says by how
  much, `ReducerRuns.PanelWithinLimitIff` when, and `ReducerRuns.PanelCanOverrun` is a run that does it.
- `capSentences` says its result is never longer than asked for; a cap of 1 is exceeded:
  `ToolProse.CapOfOneFailsIff`.
- `capSchemaDescriptions` says it leaves all but descriptions alone. It also shortens a string called
  `description` inside a default or an enum: `ToolProse.DefaultIsCut`. Data comes through whole exactly when
  every such string in it is trimmed and short: `ToolProse.UntouchedIff`, `ToolProse.DataIsWholeIff`.
- Calculation ids are said never to be reused. They are once the highest one is no longer held, after a record
  is adopted from outside (`NoteTaking.AdoptingKeepsIdsApartIff`, and `NoteTaking.AdoptionCanReuse` for a run
  that gives 1 twice) or after one is told from outside (`NoteTaking.TellingKeepsIdsApartIff`,
  and `NoteTaking.TellingCanReuse`).
- A full list of evidence markers can lose a marker of the very result being observed:
  `NoteTaking.MarkersAreHeldIff`, and `NoteTaking.FullNotesForgetAMarker` for such a result.

## Model

| member | source | states |
|---|---|---|
| `Messages.PairingIsIntact` | agent-runtime/src/compaction.ts:388-396 | answers true exactly when every tool result stands behind the call it answers |
| `Messages.AlignCutToPairs` | agent-runtime/src/compaction.ts:412-421 | the cut is the greatest one at or below the clamped request whose tail keeps its pairs, or 0 |
| `Messages.AlignCut` | agent-runtime/src/compaction.ts:412-421 | no cut between the result and the request keeps the pairs, so no smaller step back was possible |
| `Messages.AlignDropToPairs` | agent-runtime/src/compaction.ts:490-494 | the cut is the least one at or above the request whose tail keeps its pairs, or the limit |
| `Messages.AlignDrop` | agent-runtime/src/compaction.ts:490-494 | no cut from the request up to the result keeps the pairs |
| `Messages.SameCallsKeepIntact` | agent-runtime/src/compaction.ts:388-396 | a rewrite that leaves each message's calls and answers alone cannot separate a pair |
| `Messages.PrefixWithoutTools` | agent-runtime/src/compaction.ts:710-744 | messages the engine writes ahead of the tail neither repair nor break a pairing |
| `Pruning.WithoutReplayedReasoning` | agent-runtime/src/compaction.ts:461-479 | the loop returns the stripped transcript and the number of messages that really changed |
| `Pruning.StripTakesOnlyReasoning` | agent-runtime/src/compaction.ts:461-479 | a message changes exactly when it is an assistant's and has reasoning; then its other blocks stay as they are and in order, and the provider's count goes; stripping twice is stripping once |
| `Pruning.PruneStaleToolResults` | agent-runtime/src/compaction.ts:526-592 | the loop returns the pruned transcript and the number of results it cleared |
| `Pruning.PruneIsIdempotent` | agent-runtime/src/compaction.ts:526-592 | pruning a pruned transcript changes nothing, although stubs of one and of several markers read back differently |
| `Pruning.PruneKeepsShape` | agent-runtime/src/compaction.ts:526-592 | length, roles, calls and answers stay, and a message is booked as evidence after pruning exactly when it was before |
| `Pruning.PruneClearsOnlyTheDurable` | agent-runtime/src/compaction.ts:526-592 | a message changes exactly when it is older than the last six, its every marker is held in the notes and it names nothing pinned; the stub is written out and names every marker it had |
| `Pruning.ClearedAreCounted` | agent-runtime/src/compaction.ts:526-592 | the count is of exactly those results |
| `Pruning.MarkersIff` | agent-runtime/src/compaction.ts:565-566 | a text has exactly the markers that stand in it in brackets |
| `Pruning.MarkersInOrder` | agent-runtime/src/compaction.ts:565-566 | and they come in the order of the text |
| `Pruning.PruneOneIsSettled` | agent-runtime/src/compaction.ts:304-307 | a cleared result still reads as evidence and clearing it again is the same message |
| `Pruning.MarkersAreEvidence` | agent-runtime/src/compaction.ts:304-307 | a text with any `[E<n>]` marker is evidence in the sense of the classifier |
| `Ceiling.CountedRequest` | agent-runtime/src/compaction.ts:785-790 | where the provider counted a request, its count stands for everything up to there, prefix included, and only what came behind is estimated |
| `Ceiling.UncountedRequest` | agent-runtime/src/compaction.ts:785-790 | where it never did, all messages are estimated and the prefix is added |
| `Ceiling.NoticeForDropsIsShort` | agent-runtime/src/compaction.ts:360-378 | for fewer than 10^27 drops the notice is no longer than the one room was set aside for |
| `Ceiling.NoticeSaysHowMany` | agent-runtime/src/compaction.ts:360-378 | the notice says in words how many messages went and how many were shortened, one or several |
| `Ceiling.NoticeReads` | agent-runtime/src/compaction.ts:360-378 | and says nothing of what did not happen |
| `Ceiling.DropUntilItFits` | agent-runtime/src/compaction.ts:1027-1049 | the splicing loop, which ends because the protected message comes nearer with every round, drops up to the specified stop |
| `Ceiling.DropCut` | agent-runtime/src/compaction.ts:1038-1049 | where dropping ends: every earlier stop costs more than the target, and if the last one does too there is no later stop |
| `Ceiling.TruncateMessageText` | agent-runtime/src/compaction.ts:328-358 | the six-pass shortening loop computes the specified message |
| `Ceiling.ShorteningHalves` | agent-runtime/src/compaction.ts:328-358 | written out: each text block longer than half, a quarter and so on down to a sixty-fourth of the text, never under 120 characters, is its first so many characters and the note; the first that comes within the room is sent, or the sixth |
| `Ceiling.CutKeepsAnOpening` | agent-runtime/src/compaction.ts:345-356 | of every block that is cut at least the first 120 characters survive |
| `Ceiling.TruncateFromOnlyShortens` | agent-runtime/src/compaction.ts:328-358 | shortening touches text blocks only, and each becomes an opening of itself followed by the note |
| `Ceiling.TruncateLong` | agent-runtime/src/compaction.ts:1051-1066 | each message over its share of the room is cut, the others untouched, and the count is of messages over their share |
| `Ceiling.EnforceCeiling` | agent-runtime/src/compaction.ts:977-1084 | the whole pass, loops and splices, returns the specified request |
| `Ceiling.EnforceIsWrittenOut` | agent-runtime/src/compaction.ts:977-1084 | the whole pass in its own terms: what fits goes as it is; else the first stop behind the preamble that is enough, or the last; then each message over its even share of the target is halved; and a notice with both counts |
| `Ceiling.CeilingShape` | agent-runtime/src/compaction.ts:1027-1084 | every request the pass sends is the preamble, at most one notice whose count is the number of messages removed, and the rest of the projection from a stop no later than the last user message; only text blocks are shortened |
| `Ceiling.PreambleIsSent` | agent-runtime/src/compaction.ts:1051-1084 | no message of the preamble is ever dropped; each keeps its place and is whole exactly under a condition known before the pass |
| `Ceiling.CeilingKeepsPairs` | agent-runtime/src/compaction.ts:977-1084 | the pass never leaves a tool result without its call |
| `Ceiling.DroppingSufficesIff` | agent-runtime/src/compaction.ts:1042-1049 | dropping alone reaches the target exactly when some stop short of the question does: the loop never steps over one that works |
| `Ceiling.CeilingIsMet` | agent-runtime/src/compaction.ts:993-1049 | when some stop reaches the target, the request sent, its fixed prefix and the notice included and inflated by the drift, is at most the window less the reply |
| `Ceiling.CutRequestIsBounded` | agent-runtime/src/compaction.ts:1051-1066 | the shares add up: messages that each come within theirs total at most the target |
| `Ceiling.CuttingIsBounded` | agent-runtime/src/compaction.ts:1051-1084 | when every cut lands and there are no more messages than tokens, a request that had to be cut measures at most its target, prefix and notice, inflated |
| `Ceiling.CuttingMayNotFit` | agent-runtime/src/compaction.ts:1051-1066 | once text must be cut there is no such bound: a lone image question stays as large as it was and is still counted as shortened |
| `Ceiling.CountedUnchangedIff` | agent-runtime/src/compaction.ts:328-358 | a message counted as shortened comes out unchanged exactly when it has no text, or none of its blocks is longer than what the landing pass keeps |
| `Compactor.StateIsCarried` | agent-runtime/src/compaction.ts:601-642 | there is a carried message exactly when there is something to say, and plan, decisions, evidence, open issues, files, pins and notes stand in it word for word under their labels |
| `Compactor.DecisionsAreCarried` | agent-runtime/src/compaction.ts:601-642 | every decision in force, and the notes, stand word for word in the carried message |
| `Compactor.RunCompactor.Transform` | agent-runtime/src/compaction.ts:799-936 | one turn of the class, its summary, coverage and counters included, is the specified step and sends the specified request |
| `Compactor.RunCompactor.ProjectNow` | agent-runtime/src/compaction.ts:710-744 | the projection is the preamble and the kept tail behind the aligned boundary |
| `CompactorRuns.RunHasNoGap` | agent-runtime/src/compaction.ts:850-911 | over any append-only run, any cut points and any summariser failures, every message before the covered boundary was in a slice passed to a successful summary, as the pins and notes of that turn left it |
| `CompactorRuns.TurnIsWrittenOut` | agent-runtime/src/compaction.ts:799-936 | a turn compacts exactly when compaction is on, the request is over the window less the reply, the cut is behind what is covered and a summary could be written; then the slice between, as it stands, goes to the summariser, and coverage moves to the last cut that keeps the pairs; otherwise nothing moves |
| `CompactorRuns.NothingIsLost` | agent-runtime/src/compaction.ts:710-936 | every message before the tail was summarised, the next ones are exactly those the notice counts, and all later ones are sent in order, stripped of reasoning, a stub exactly where the result is reclaimable under the pins of that very turn; the tail begins as late as pairing lets it; the last question is sent |
| `CompactorRuns.PinnedIsSent` | agent-runtime/src/compaction.ts:548-563 | a kept result that names a pin goes out with all its text, when no text is cut |
| `CompactorRuns.RequestsKeepPairs` | agent-runtime/src/compaction.ts:799-936 | if the transcript has every result behind its call, so has the request, on every path of the turn |
| `CompactorRuns.StateReachesTheModel` | agent-runtime/src/compaction.ts:601-642 | behind a summary the carried state comes second in the request, whole exactly when no text had to be cut, or it is within its share, or nothing in it is long enough to cut; then all of it is in it word for word |
| `CompactorRuns.DecisionsReachTheModel` | agent-runtime/src/compaction.ts:601-642 | in particular every decision in force |
| `CompactorRuns.NotesReachTheModel` | agent-runtime/src/compaction.ts:710-724 | before there is a summary the notes come first, whole under that same condition |
| `CompactorRuns.CoverageGrowsIff` | agent-runtime/src/compaction.ts:907-911 | a successful compaction keeps coverage from shrinking exactly when some cut from the old boundary up to the requested one keeps the pairs |
| `CompactorRuns.CoverageCanMoveBack` | agent-runtime/src/compaction.ts:907-911 | a concrete transcript with a late result whose compaction takes coverage from 1 back to 0 |
| `CompactorRuns.RunCanMoveBack` | agent-runtime/src/compaction.ts:850-911 | a run of two turns that covers a message while its result is out, and uncovers it when the result comes in |
| `CompactorRuns.RequestsFit` | agent-runtime/src/compaction.ts:785-920 | whatever path a turn takes, what is sent fits the window less the reply whenever some stop short of the question does |
| `Translator.MessageTranslator.Thinking` | agent-runtime/src/run.ts:1701-1717 | the method's frame and new state are the specified ones |
| `Translator.MessageTranslator.EndThinking` | agent-runtime/src/run.ts:1747-1767 | the closing frame and the reset state are the specified ones |
| `Translator.MessageTranslator.TranslateEvent` | agent-runtime/src/run.ts:1841-1965 | for every event the wire events and the new state are the specified ones |
| `Translator.MessageTranslator.FinalizeRun` | agent-runtime/src/run.ts:1827-1839 | finalizing closes what is open with the last assistant message's reason and usage |
| `Translator.LastAssistant` | agent-runtime/src/run.ts:1827-1839 | the search from the end finds an assistant message exactly when there is one, and none stands behind the one it finds |
| `TranslatorRuns.Lifecycle` | agent-runtime/src/run.ts:1791-1839 | over any event sequence at most one start and one end are sent, and the flags say which |
| `TranslatorRuns.MessageEndClosesIff` | agent-runtime/src/run.ts:1939-1958 | an assistant message closes an open cell exactly when it does not hand over to a tool, with its own reason and usage |
| `TranslatorRuns.FinalizingCloses` | agent-runtime/src/run.ts:1827-1839 | finalizing closes with the reason and usage of the last assistant message, or as an error where there is none |
| `TranslatorRuns.FinalizeCloses` | agent-runtime/src/run.ts:1791-1839 | however the loop leaves, an opened cell gets exactly one end, and finalizing again sends nothing |
| `TranslatorRuns.EndSendsTheRest` | agent-runtime/src/run.ts:1880-1915 | an end sends what the block it names, or the first where there is no such block, has beyond what was forwarded for it, and nothing where that is no text |
| `TranslatorRuns.QuietCallsDoNothing` | agent-runtime/src/run.ts:1841-1935 | user messages, tool-call parts, block openings and empty pieces change and send nothing |
| `TranslatorRuns.DeltaIsSent` | agent-runtime/src/run.ts:1862-1879 | a piece of text is sent as it is, behind the frame that closes the reasoning before it |
| `TranslatorRuns.BlockIsExact` | agent-runtime/src/run.ts:1862-1915 | whatever is interleaved with a block, what was forwarded for it at its end is its finished text exactly when its deltas were an opening of that text |
| `TranslatorRuns.TurnIsExact` | agent-runtime/src/run.ts:1776-1915 | in any run, with the blocks of a message interleaved in any way, all text sent is made of its blocks' pieces, and those of a block are its finished text exactly when its deltas were an opening of it |
| `TranslatorRuns.RunIsExact` | agent-runtime/src/run.ts:1776-1915 | over any number of turns whose blocks follow one another, the forwarded text is the blocks' finished texts, in order, once each |
| `TranslatorRuns.ReasoningIsConserved` | agent-runtime/src/run.ts:1701-1767 | under an arbitrary clock everything thought in an open block has been framed or waits in the buffer |
| `TranslatorRuns.ThinkingIsPrompt` | agent-runtime/src/run.ts:1701-1745 | after a thought what is buffered is younger than 80 ms and the last frame than a second; a frame carries all that was buffered and the block's size and age, and follows another only when one of those is due |
| `TranslatorRuns.ClosingFrameIsComplete` | agent-runtime/src/run.ts:1701-1767 | at the closing frame the frames' text is all the block thought, `characters` its length, and 80 times the active frames is at most the elapsed time if the clock did not go back |
| `TranslatorRuns.ReasoningDroppedIff` | agent-runtime/src/run.ts:1841-1965 | an open block ends without a closing frame exactly when an assistant message opens over it; then precisely the buffered text is lost |
| `TranslatorRuns.ReasoningCanBeDropped` | agent-runtime/src/run.ts:1841-1965 | a run whose only thought is in no frame: the next message opens before a tick |
| `Reducer.RunReducer.ApplyEnvelope` | src/contexts/ConversationContext.tsx:433-595 | one envelope changes the reducer's fields, and is consumed, as specified |
| `Reducer.RunReducerRegistry.Receive` | src/contexts/ConversationContext.tsx:683-714 | the registry and all its reducers become what delivering the envelope makes of them: at most one reducer, found by run id first and message id second, reads it |
| `ReducerRuns.ConsumedIff` | src/contexts/ConversationContext.tsx:433-470 | a reducer takes exactly the events that name its message, and of those that name none the ones under the caller's id or the one it has learnt, and the plan that echoes the caller's |
| `ReducerRuns.LearntIff` | src/contexts/ConversationContext.tsx:438-478 | exactly when the server's id is learnt; an event that is no wire of its own changes nothing else |
| `ReducerRuns.RoutedByRunThenMessage` | src/contexts/ConversationContext.tsx:686-714 | the registry asks for the run id and then for the message of those events that name one |
| `ReducerRuns.PlanTeachesOnlyTheCallersId` | src/contexts/ConversationContext.tsx:437-446 | a plan reaches a reducer through the registry only under the caller's own id, so that is all it can teach it |
| `ReducerRuns.CellsDoNotMix` | src/contexts/ConversationContext.tsx:433-548 | with any number of runs registered, what one cell shows is made of the envelopes naming its own message and of nothing else |
| `ReducerRuns.OwnWireIsFollowed` | src/contexts/ConversationContext.tsx:433-474 | a run's own wire events are followed under whatever run id the server stamps |
| `ReducerRuns.NamedButLostIff` | src/contexts/ConversationContext.tsx:686-714 | an envelope naming a registered message is lost to it exactly when another registered run owns its run id |
| `ReducerRuns.NamedCanBeLost` | src/contexts/ConversationContext.tsx:686-714 | between any two registered runs, an update for one under the other's run id changes nothing at all |
| `ReducerRuns.CellShowsWhatIsSent` | src/contexts/ConversationContext.tsx:507-533 | for every call sequence that opens with an assistant message the cell shows all the text the translator sent, and only that |
| `ReducerRuns.CellShowsTheRun` | src/contexts/ConversationContext.tsx:507-533 | end to end, for blocks that follow one another: the cell shows their finished texts, in order, once each |
| `ReducerRuns.RegisteredCellShowsItsRun` | src/contexts/ConversationContext.tsx:433-714 | the same through the registry with any number of other runs on the channel, as long as no other registered run's id is on the run's envelopes |
| `ReducerRuns.FinalIsWhatWasShown` | src/contexts/ConversationContext.tsx:534-595 | what is handed over as final is what the cell showed at the first end |
| `ReducerRuns.FinalIsWholeIff` | src/contexts/ConversationContext.tsx:534-595 | the handed-over answer is the whole answer exactly when no text follows the end |
| `ReducerRuns.RunFinalIsWholeIff` | src/contexts/ConversationContext.tsx:534-595 | over any run whose cell was opened, the handed-over answer is all that is shown exactly when no call behind the end sends text |
| `ReducerRuns.FinalCanBePartial` | src/contexts/ConversationContext.tsx:534-595 | a run that closes its cell and then streams another message hands over the first answer and shows both |
| `ReducerRuns.PanelIsATail` | src/contexts/ConversationContext.tsx:478-500 | the reasoning panel holds the newest end of all reasoning, at least 24000 characters of it or all, and says so exactly when it is not all |
| `ReducerRuns.PanelIsThisLarge` | src/contexts/ConversationContext.tsx:489-500 | its size is the reasoning up to the last frame with text, held at 24000 characters, and two for every block opened since |
| `ReducerRuns.PanelWithinLimitIff` | src/contexts/ConversationContext.tsx:489-500 | it is within 24000 characters exactly when no block opened since, or there is room for the separators |
| `ReducerRuns.PanelCanOverrun` | src/contexts/ConversationContext.tsx:489-500 | a run of the translator after which the panel holds 24002 characters and is not marked as trimmed |
| `Peer.RpcPeer.OpenRequest` | agent-runtime/src/peer.ts:97-112 | an id is issued and pending, or settled at once when the write fails, or nothing happens on a closed channel |
| `Peer.RpcPeer.Close` | agent-runtime/src/peer.ts:125-133 | closing rejects everything pending with the reason given, or with the peer-closed error, and happens once |
| `Peer.RpcPeer.Settle` | agent-runtime/src/peer.ts:190-202 | a reply ends the promise that waits for it and is otherwise dropped |
| `Peer.RpcPeer.Receive` | agent-runtime/src/peer.ts:176-216 | one packet settles a promise, starts a job, or is refused when no handler has its name; a refusal that cannot be written closes the peer |
| `Peer.RpcPeer.ServeEnd` | agent-runtime/src/peer.ts:142-232 | a handler's end becomes one reply, or none on a closed channel; an error reply that cannot be written closes the peer with that failure |
| `PeerRuns.ReceiveIsTake` | agent-runtime/src/peer.ts:176-216 | the two-peer system reads a packet exactly as the class does |
| `PeerRuns.OpeningIssues` | agent-runtime/src/peer.ts:92-112 | an open end gives each call a new id and sends it; one that cannot be written is settled at once with the failure; a closed end does nothing |
| `PeerRuns.UnsentErrorCloses` | agent-runtime/src/peer.ts:142-159 | an end closes itself exactly when an error reply cannot be written, and everything it waits for fails with that |
| `PeerRuns.RunKeepsInv` | agent-runtime/src/peer.ts:97-232 | in every reachable state of two peers with overlapping ids, both directions keep their books, their traffic belongs to calls that were made, and every id is conserved |
| `PeerRuns.ExactlyOnePlace` | agent-runtime/src/peer.ts:97-232 | while both ends are open every issued id is in exactly one place: request in flight, being served, reply in flight, or settled |
| `PeerRuns.QuietMeansSettled` | agent-runtime/src/peer.ts:97-202 | when nothing is under way any more, nothing is pending |
| `PeerRuns.SettledAsItEnded` | agent-runtime/src/peer.ts:190-232 | every promise ends with what the far handler returned or threw for that very call, with `unknown_method` for want of one, with `internal` where the result could not be written, or because it was not sent or its own end closed |
| `PeerRuns.ResolvedWithItsOwnResult` | agent-runtime/src/peer.ts:190-226 | a resolved request has a handler that completed with that very value for that very call |
| `PeerRuns.RejectedForItsOwnReason` | agent-runtime/src/peer.ts:190-232 | while its own end is open, a rejected request carries the code and message of the far handler's end for that very call |
| `PeerRuns.SettlesOnce` | agent-runtime/src/peer.ts:97-202 | no step changes how a promise ended, and no id is issued twice |
| `PeerRuns.ClosedLeavesNothingPending` | agent-runtime/src/peer.ts:125-133 | after closing every issued id is settled and none is pending |
| `PeerRuns.StrandedOnlyByAClosedEnd` | agent-runtime/src/peer.ts:224-232 | an id left pending with nothing under way was answered by an end too closed to send it |
| `PeerRuns.FramesCarryPackets` | agent-runtime/src/peer.ts:176-188 | the frame written for a packet can be sent and is dispatched as that packet, although the shapes overlap |
| `PeerRuns.DispatchedBy` | agent-runtime/src/peer.ts:168-188 | overlapping shapes are told apart by their most specific key, and what is read is what stands under the keys |
| `PeerRuns.PacketsSurviveThePipe` | agent-runtime/src/peer.ts:139-188 | what one end writes, cut anywhere under the limit, is dispatched at the other as the same packets in order |
| `Protocol.FrameDecoder.Push` | agent-runtime/src/protocol.ts:127-150 | the buffer loop finds exactly the specified frames or error and holds back the specified rest |
| `Protocol.FrameReadsIff` | agent-runtime/src/protocol.ts:154-172 | a line is a frame exactly when it is a JSON object of one of the four shapes; otherwise the error says what is wrong |
| `Protocol.FineLinesGiveTheirFrames` | agent-runtime/src/protocol.ts:127-150 | lines that are blank or frames give their frames in order, and what stands behind the last break is held back |
| `Protocol.FirstWrongLineBreaks` | agent-runtime/src/protocol.ts:127-150 | the first line that is wrong breaks the push with its own error, and what stands behind it is held back |
| `Protocol.ChunksDoNotMatter` | agent-runtime/src/protocol.ts:113-155 | for any split of a stream without malformed lines that stays under the limit, the frames and the pending tail are those of one push |
| `Protocol.ShortStreamsStayUnder` | agent-runtime/src/protocol.ts:127-135 | a stream no longer than the limit may be cut anywhere |
| `Protocol.DecodingUndoesEncoding` | agent-runtime/src/protocol.ts:157-177 | decoding the concatenation of encoded frames gives those frames and holds nothing back |
| `Protocol.PipeDelivers` | agent-runtime/src/protocol.ts:113-177 | encoded frames cut into any chunks under the limit arrive as those frames |
| `Protocol.MalformedLineLosesItsChunk` | agent-runtime/src/protocol.ts:127-150 | behind a malformed line the cut decides: the good frame before it arrives in its own chunk and is lost in the same one |
| `Protocol.LimitIsOnTheBuffer` | agent-runtime/src/protocol.ts:127-135 | two frames that each fit the limit are refused together, because the whole buffer is measured |
| `Protocol.OverrunsIff` | agent-runtime/src/protocol.ts:127-135 | a push overruns exactly when what was held back and the chunk together are over the limit |
| `Json.ParseOfRender` | agent-runtime/src/repair.ts:278-313 | any JSON text (RFC 8259), surrogate pairs and white space included, parses to the value it stands for |
| `JsonSound.ParseIff` | agent-runtime/src/repair.ts:278-313 | exactly the JSON texts (RFC 8259) parse, each to the value it stands for: nothing else is accepted |
| `Json.ParseOfStringify` | agent-runtime/src/protocol.ts:175-177 | what is printed is read back |
| `Json.StringifyIsOneLine` | agent-runtime/src/protocol.ts:175-177 | a printed value holds no raw line break (section 7 of RFC 8259) |
| `Repair.EndOfJsonObject` | agent-runtime/src/repair.ts:218-238 | the scan over depth, quotes and escapes computes the specified end |
| `RepairProofs.ScannerIsExact` | agent-runtime/src/repair.ts:218-238 | for every object text by the grammar of RFC 8259 (sections 4 and 7), any four digits behind an escape, raw breaks in its strings allowed, and any suffix, the scanner stops exactly at the object's length |
| `Repair.ParseLenientJson` | agent-runtime/src/repair.ts:278-313 | the rewriting loop and the two parses compute the specified value |
| `RepairProofs.LexicalIsTight` | agent-runtime/src/repair.ts:278-313 | any text of the JSON grammar is left as it is |
| `RepairProofs.RewriteTightens` | agent-runtime/src/repair.ts:278-313 | raw line feeds and tabs inside strings become their escapes, raw returns go, and the rest is unchanged |
| `RepairCalls.LenientIsRewriteThenParse` | agent-runtime/src/repair.ts:278-313 | trying the text as it is first decides nothing: whatever already parses is a fixed point of the rewrite |
| `RepairCalls.LenientReadsLoose` | agent-runtime/src/repair.ts:278-313 | loosely written JSON reads as the value it was meant to be |
| `RepairCalls.CallReadsIff` | agent-runtime/src/repair.ts:241-257 | a value is a call exactly when it is an object with a name that resolves and arguments that are an object, under `arguments` or, where that is missing or null, `parameters`, written as an object or as a string that reads as one |
| `RepairCalls.ResolvesIff` | agent-runtime/src/repair.ts:263-270 | a name resolves exactly to itself if allowed, else to the only allowed name that differs in dots, underscores and case |
| `RepairCalls.AlikeIff` | agent-runtime/src/repair.ts:263-270 | names are alike exactly when they differ in nothing but case and dots for underscores |
| `Repair.ParseStandaloneJsonToolCalls` | agent-runtime/src/repair.ts:182-215 | the parse loop, which ends because the rest grows shorter, returns the specified calls |
| `RepairRoundTrip.MessageReadsAsItsCalls` | agent-runtime/src/repair.ts:182-215 | a message that opens with any number of calls, bare, fenced or tagged, reads as exactly those calls in order, and whatever stands behind them as a message of its own would |
| `RepairRoundTrip.EchoIsDropped` | agent-runtime/src/repair.ts:186-191 | a tool list echoed ahead of any message, whatever it lists, is as if it had not been said |
| `RepairRoundTrip.FencedEchoIsDropped` | agent-runtime/src/repair.ts:186-191 | the same for a list in a fence, plain or marked `xml` |
| `RepairRoundTrip.EchoedMessageReadsAsItsCalls` | agent-runtime/src/repair.ts:182-215 | so calls behind an echoed list, bare or fenced, read as exactly those calls |
| `RepairRoundTrip.UnclosedEchoIsLeft` | agent-runtime/src/repair.ts:186-191 | a list that is not closed is left, and a message that opens with one yields no call |
| `RepairRoundTrip.TailIsDiscardedIff` | agent-runtime/src/repair.ts:165-215 | what stands behind the calls is discarded exactly when it opens with no call: with words, an unclosed fence or tag, or a piece that is no call of an allowed tool |
| `RepairRoundTrip.PrintedCallsComeBack` | agent-runtime/src/repair.ts:182-270 | any calls of allowed tools, printed in order and each bare, fenced or tagged, are read back as themselves, whatever stands behind them |
| `RepairRoundTrip.LeftAloneIff` | agent-runtime/src/repair.ts:182-215 | a message yields no calls exactly when, behind a tool list it echoes, it opens with none |
| `RepairRoundTrip.ProseIsLeftAlone` | agent-runtime/src/repair.ts:182-215 | in particular one that there opens with no object, no closed fence and no closed tag |
| `ToolNames.NameIsStable` | agent-runtime/src/tool-names.ts:127-130 | canonicalising is idempotent, so both spellings of a tool meet in one entry |
| `ToolNames.NamesSayWhatFor` | agent-runtime/src/tool-names.ts:127-130 | a current name stands for itself, a retired one for its successor, and what a tool is for goes by that name |
| `Notes.LineIsIdempotent` | agent-runtime/src/working-notes.ts:97-102 | tidying and capping a line twice is doing it once |
| `Notes.LineIsTidy` | agent-runtime/src/working-notes.ts:97-102 | every kept line is trimmed, has single blanks only and at most 240 characters |
| `Notes.LineIsItsWords` | agent-runtime/src/working-notes.ts:97-102 | a line is the words of a text with one blank between each two, and at most 239 characters of that and the mark that it goes on |
| `Notes.EveryTextIsSpread` | agent-runtime/src/working-notes.ts:97-102 | every text is words in white space, so that says it for all |
| `Notes.SingleValuesAreTheLatest` | agent-runtime/src/working-notes.ts:163-170 | goal, stage and next action held are those told last |
| `Notes.AnsweredIsClosed` | agent-runtime/src/working-notes.ts:207-211 | an answer closes its own question and no other, and the others keep their order |
| `Notes.WorkingNotes.Push` | agent-runtime/src/working-notes.ts:105-117 | the shifting loop leaves the newest entries under the cap and counts each one it drops |
| `Notes.WorkingNotes.AddId` | agent-runtime/src/working-notes.ts:194-198 | a blank or known id changes nothing; a new one is pushed |
| `Notes.WorkingNotes.HasDone` | agent-runtime/src/working-notes.ts:251-257 | answers exactly whether some entry is the same effect under either spelling |
| `Notes.WorkingNotes.RecordEffect` | agent-runtime/src/working-notes.ts:232-241 | an effect already known changes nothing; a new one is recorded under the current name |
| `Notes.WorkingNotes.ReplaceWith` | agent-runtime/src/working-notes.ts:283-312 | adopting a record in place gives, on any instance, the state that loading it gives |
| `Notes.WorkingNotes.From` | agent-runtime/src/working-notes.ts:137-161 | loading tells the record again through the same setters |
| `NotesRuns.ApplyKeepsWellKept` | agent-runtime/src/working-notes.ts:163-241 | every setter keeps the lists capped, the ids tidy, non-empty and distinct, and the effects canonically distinct |
| `NotesRuns.LoadIsWellKept` | agent-runtime/src/working-notes.ts:137-161 | whatever a persisted record holds, what is loaded from it satisfies that invariant |
| `NotesRuns.HeldAtMost` | agent-runtime/src/working-notes.ts:105-117 | so the lists hold at most 12 decisions, 32 effects, 8 questions, 64 markers, 32 calculations and 16 artifacts |
| `NotesRuns.NotesSurvivePersistence` | agent-runtime/src/working-notes.ts:137-161 | for every reachable state, loading what is persisted gives that state back |
| `NotesRuns.RestartsDoNotShow` | agent-runtime/src/working-notes.ts:137-161 | a run with any number of restarts holds the notes of the run without them |
| `NotesRuns.IdsAreAWindow` | agent-runtime/src/working-notes.ts:105-117 | each id list holds the newest of all it accepted, in order, and held plus dropped is accepted |
| `NotesRuns.DecisionsAreAWindow` | agent-runtime/src/working-notes.ts:171-179 | the same for decisions |
| `NotesRuns.EffectsAreAWindow` | agent-runtime/src/working-notes.ts:232-241 | the same for completed effects |
| `NotesRuns.EffectIsRemembered` | agent-runtime/src/working-notes.ts:232-257 | a newly recorded effect answers in either spelling through 31 further new ones, and after that only if recorded again |
| `NoteTaking.NextCalculationId` | agent-runtime/src/note-taking.ts:90-100 | the loop gives one past the highest number held |
| `NoteTaking.ObserveToolResult` | agent-runtime/src/note-taking.ts:60-151 | one result changes the notes as specified: markers, calculation id, effect and artifact |
| `NoteTaking.ResultLeaves` | agent-runtime/src/note-taking.ts:60-151 | what one result leaves behind: a side effect under the current name if it was not known, an artifact if the tool makes one, and nothing single-valued, decided or asked |
| `NoteTaking.TargetIs` | agent-runtime/src/note-taking.ts:60-80 | what a call acted on is the last segment of its path, or the path where that is empty; without a path an execution and its language |
| `NoteTaking.NoCalculationIdTwice` | agent-runtime/src/note-taking.ts:81-137 | given ids strictly increase for the whole run, past the cap of 32 and across restarts, and none was held at its start, while nothing told or adopted takes the highest number away |
| `NoteTaking.OrdinaryRunsCount` | agent-runtime/src/note-taking.ts:90-137 | where calculations come from results alone and nothing is adopted, that holds and the numbers are consecutive |
| `NoteTaking.AdoptingKeepsIdsApartIff` | agent-runtime/src/working-notes.ts:283-312 | after a record is adopted every ordinary continuation gives only numbers above the highest held before exactly when the record, as loaded, holds one as high |
| `NoteTaking.TellingKeepsIdsApartIff` | agent-runtime/src/run.ts:1507-1522 | after a calculation is told from outside the same holds exactly when it is blank or known, or there is room, or the oldest id is not the only one as high, or it is as high itself |
| `NoteTaking.TellingCanReuse` | agent-runtime/src/run.ts:1507-1522 | a run in which ids told from outside push the only number out, and the next result is given it again |
| `NoteTaking.AdoptionCanReuse` | agent-runtime/src/working-notes.ts:283-312 | a record adopted without the highest number makes a later calculation take an id already given |
| `NoteTaking.MarkersAreHeld` | agent-runtime/src/note-taking.ts:122-124 | while there is room, every marker of an evidence result is held after it |
| `NoteTaking.MarkersAreHeldIff` | agent-runtime/src/note-taking.ts:122-124 | the markers of an evidence result are all held after it exactly when none is over 240 characters, the list accepts at most its cap of them and none it knew is pushed out without being accepted again |
| `NoteTaking.FullNotesForgetAMarker` | agent-runtime/src/working-notes.ts:194-198 | in full notes a marker seen again is not moved up, so a newer one in the same result pushes it out |
| `ToolProse.CapText` | agent-runtime/src/tool-budget.ts:173-197 | the loop over sentence ends computes the specified cut |
| `ToolProse.ProseIsCutAtASentence` | agent-runtime/src/tool-budget.ts:173-197 | prose over its cap ends with its last sentence within it; where the first is too long, at the last blank if that is past the middle, or short of the cap, and marked |
| `ToolProse.CapIsMonotone` | agent-runtime/src/tool-budget.ts:173-197 | the result never grows as the cap shrinks |
| `ToolProse.CapIsKept` | agent-runtime/src/tool-budget.ts:173-197 | the cap is kept for every cap but 1, and a text that says anything is never emptied by a cap above 0 |
| `ToolProse.CapOfOneFailsIff` | agent-runtime/src/tool-budget.ts:173-197 | a cap of 1 is exceeded exactly when the text is longer and does not open with a one-character sentence |
| `ToolProse.SaidWholeIff` | agent-runtime/src/tool-budget.ts:173-197 | a cap leaves a text as it is exactly when the text is empty, or trimmed and short enough, or one letter marked as cut under a cap of 1 |
| `ToolProse.CappingKeepsShape` | agent-runtime/src/tool-budget.ts:210-227 | at every depth only string members called `description` change |
| `ToolProse.MembersAreCapped` | agent-runtime/src/tool-budget.ts:210-227 | every description, wherever it stands, becomes what its sentences are capped to or goes; every other member is capped inside |
| `ToolProse.UntouchedIff` | agent-runtime/src/tool-budget.ts:210-227 | a value comes through a cap as it is exactly when every string called `description` in it, at every depth, is trimmed and short enough |
| `ToolProse.DataIsWholeIff` | agent-runtime/src/tool-budget.ts:200-227 | what stands under `default`, `enum`, `const` or `examples`, anywhere among the members, is capped by itself and whole under that same condition |
| `ToolProse.DefaultIsCut` | agent-runtime/src/tool-budget.ts:200-227 | a default with a member called `description` loses it |
| `ToolSizes.SmallerCapPrintsLess` | agent-runtime/src/tool-budget.ts:210-227 | a schema printed under a smaller cap is no longer, escapes and dropped members included |
| `ToolBudget.StagesSay` | agent-runtime/src/tool-budget.ts:81-87 | how many characters each stage leaves a tool and its parameters |
| `ToolBudget.ToolCosts` | agent-runtime/src/tool-budget.ts:123-137 | a tool costs what its name, prose, printed schema and 48 characters of envelope measure |
| `ToolBudget.StageCostNeverIncreases` | agent-runtime/src/tool-budget.ts:81-87 | more pressure never costs more, for every catalogue and every rising estimator |
| `ToolBudget.StagesKeepTheCall` | agent-runtime/src/tool-budget.ts:230-240 | every stage keeps a tool's name and the shape a call is built from |
| `ToolBudget.FitToolsToBudget` | agent-runtime/src/tool-budget.ts:257-319 | the least compressed stage that fits; where none does, the longest non-empty opening that fits at the last stage; kept then dropped names are the catalogue; the report agrees; any budget that is not a positive number leaves the catalogue untouched |
| `ToolBudget.ReportedIs` | agent-runtime/src/tool-budget.ts:264-276 | how any budget is reported, finite or not |
| `ToolBudget.FitIsDetermined` | agent-runtime/src/tool-budget.ts:257-319 | that determines the result: there is one way to fit |
| `ToolBudget.OverBudgetIff` | agent-runtime/src/tool-budget.ts:295-318 | over budget exactly when the first tool alone is too much at the last stage |
| `ToolBudget.SettingsFitIff` | agent-runtime/src/compaction.ts:183-215 | reserve and recent history fit the window together exactly from 1024 tokens on, and the reserve covers the model's output up to half the window |
| `ToolBudget.SettingsAre` | agent-runtime/src/compaction.ts:183-215 | the shares exactly: a fifth of the window for the reply, two for recent history, neither under 512 |
| `ToolBudget.BudgetFitsIff` | agent-runtime/src/run.ts:469-492 | budget, committed tokens and conversation floor fit the window exactly when a token is to spare, which a budget above 1 says |
| `ToolBudget.ToolBudgetIs` | agent-runtime/src/run.ts:469-492 | the budget exactly: what reserve, texts, template and the conversation's floor leave, at most nine twentieths of the window and at least a token |
| `ToolBudget.FittedCatalogueLeavesRoom` | agent-runtime/src/run.ts:469-492 | a fitted catalogue that is not over leaves the conversation its floor |
| `ContextEntities.RollUp` | agent-runtime/src/context-entities.ts:100-107 | the table loop sums, per section, exactly the entities that count, and keeps the sections in the order they first appear |
| `ContextEntities.WithRemainders` | agent-runtime/src/context-entities.ts:164-195 | the rows are the registered ones and one remainder for each section that differs |
| `ContextEntities.RemaindersAdd` | agent-runtime/src/context-entities.ts:164-195 | remainder rows add to a section its shortfall and never hide an over-claim |
| `ContextEntities.ReconcileSections` | agent-runtime/src/context-entities.ts:124-139 | names each disagreeing section once, with both numbers, and no other, in the order of the rows and then of the totals |
| `ContextEntities.ItemisationFailsIff` | agent-runtime/src/context-entities.ts:124-195 | with its remainders a section disagrees exactly when its entities over-claim, or when it is not itemised and yet has rows |
| `ContextEntities.MayGoIff` | agent-runtime/src/context-entities.ts:225-236 | which entities may go: active, not pinned, movable and older than a known tail |
| `ContextEntities.PlanIsTheOrder` | agent-runtime/src/context-entities.ts:225-247 | the plan is a permutation of the unpinned active movable entities before the tail, evidence first and then oldest, ties as registered; an unknown tail promises nothing |
| `ContextLedger.ContextLedger.DriftFactor` | agent-runtime/src/context-ledger.ts:268-274 | the worst measured ratio, held between 1 and 1.5 |
| `ContextLedger.OccupiedIsAllButTheReserve` | agent-runtime/src/context-ledger.ts:401-407 | every section but the reserve counts in full |
| `ContextLedger.ContextLedger.ApplyPins` | agent-runtime/src/context-ledger.ts:328-334 | the pinned set becomes exactly the ids asked for, whatever their case |
| `ContextLedger.UpsertKeepsRows` | agent-runtime/src/context-ledger.ts:297-303 | one row per id in first-registered order; only that row changes, and a pin outlives an update that mentions none |
| `ContextLedger.ContextLedger.ApplyMeasuredInput` | agent-runtime/src/context-ledger.ts:385-399 | occupied becomes the larger of the count and the other non-reserve sections; only the transcript moves |
| `ContextLedger.ContextLedger.TakeSnapshot` | agent-runtime/src/context-ledger.ts:401-433 | the errors are exactly the sections whose entities over-claim, and the reserve if its entities do not sum to zero; every other section's rows sum to it |
| `Levenshtein.Distance` | scripts/bench_ocr.py:106-117 | the two-row loop, sides swapped or not, computes the recursive distance |
| `Levenshtein.Symmetric` | scripts/bench_ocr.py:106-117 | the distance is symmetric, so the swap does not matter |
| `Levenshtein.ZeroIff` | scripts/bench_ocr.py:106-117 | it is zero exactly on equal texts |
| `Levenshtein.Triangle` | scripts/bench_ocr.py:106-117 | it obeys the triangle inequality |
| `Levenshtein.NoScriptIsCheaper` | scripts/bench_ocr.py:106-117 | no edit script between the two texts costs less |
| `Levenshtein.BestAttainsIt` | scripts/bench_ocr.py:106-117 | and one costs exactly that |
| `Triplets.Decode` | sidecars/graph_sidecar/rebel.py:60-142 | the token loop and the de-duplication return the distinct triplets the stream states |
| `Triplets.MachineReadsTheStream` | sidecars/graph_sidecar/rebel.py:80-128 | on every stream of tokens the machine finds exactly what the stream states when split at its tags |
| `Triplets.DecodeTriplets` | sidecars/graph_sidecar/rebel.py:60-142 | the same from the generated text, its padding tags removed |
| `Triplets.DistinctMore` | sidecars/graph_sidecar/rebel.py:129-142 | each triplet stays where it is first stated |
| `TripletText.DecodingUndoesLinearising` | sidecars/graph_sidecar/rebel.py:60-142 | any printed groups decode to their flattened triplets, duplicates out and first seen first, with malformed spans between them or without |
| `TripletText.MalformedStatesNothing` | sidecars/graph_sidecar/rebel.py:60-142 | a span without `<subj>` or without `<obj>` states nothing |
| `TripletText.StatedAcross` | sidecars/graph_sidecar/rebel.py:87-95 | a `<triplet>` forgets everything before it |
| `TripletText.StatedAreWhole` | sidecars/graph_sidecar/rebel.py:80-84 | whatever a stream says, every triplet it states has a subject, a relation and an object |

## Left out

- The estimator, the cut point chooser and the summariser: parameters of the model. The estimator is any
  function of a message; where a bound needs it, it is assumed to read a notice, or a tool's text, by its length.
- CJK weighting of the estimator: a notice or a tool with such characters may measure more than its length says.
- The prose of notices, stubs and summaries: constants without a value, on whose wording nothing depends.
- Timestamps of messages, and the clock except in the reasoning frames, where it is an arbitrary number.
- Floating point: shares, drift and ratios are real numbers, and counts are unbounded.
- UTF-16: text is a sequence of characters, none of which is half of a surrogate pair, so lengths count characters.
- Case folding beyond ASCII, in pins and in tool names.
- Lone surrogate halves: the original reads a string with an escaped half that has no partner; here no character
  stands for it, and a text with one does not parse. The scanner and the rewrite have no such limit.
- JSON numbers are kept as they are written, and a member name that occurs twice is kept twice; object keys
  that look like array indices are not moved to the front.
- Frames with ids that are not strings, notification handlers, and what is told to the fatal sink.
- The shape counters of the translator, and the redaction of events that are not part of the message stream.
- Timers, mirrors, persistence and progress steps of the reducer, and the subscription of the registry.
- Measuring the projected context into the ledger section by section, and the callbacks after a compaction.
- Rendering the notes as text, and their emptiness test.
- The ledger's measuring setters, `fits`, `largest`, pressure and share: expressions over what is modelled.
- Splitting a passage for the encoder at its sentences, and telling a decoder that ran in circles.
- The model itself, its retries and salvage turn, the tools, the grant map and the OCR budget.
- Protocol.FrameDecoder.Push: a frame with a lone surrogate half is malformed here and read by the original.
- Protocol.MalformedLineLosesItsChunk: its malformed lines include frames with a lone surrogate half.
- Repair.ParseLenientJson: a text with a lone surrogate half does not parse.
- Repair.ParseStandaloneJsonToolCalls: a call with a lone surrogate half in its text is not found.
- CompactorRuns.RequestsFit: one of two measures is bounded, the estimate or the provider's own count, because the pass itself lets a request through on the latter.
- NoteTaking.NoCalculationIdTwice: numbers are below 2^53, where the original's arithmetic is exact.
- NoteTaking.MarkersAreHeld: markers of up to 240 characters, in a list with room; the other cases are those of the exact condition beside it.
