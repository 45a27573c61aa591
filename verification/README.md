# Verified models of Mind's transcripts, streams, permissions and lifecycles

The agent keeps an append-only log of what happened in a session and replays it into the list of messages and tool
records a model sees. Around it stand a line splitter and a phase machine for the output of long-running tools, an
algebra of permission profiles, the accounting of monkey runs, persisted requests and commands, the authorization status
of MCP servers, and several owners that must release what they created. These modules model that logic and prove what it
keeps.

**Transcripts.** `Transcripts` holds the replay twice: as the loop does it, through five tables of list positions that a
removal does not renumber (`Run`, `Replay`), and as a fold that finds every entry by identity (`Narrate`).
`TranscriptRefinement` shows that the two agree on *clean* logs, where no removal lies below an entry that a table can
still reach, that clean logs are exactly those on which the tables stay right, and that a small family of other logs
makes the loop raise. `TranscriptConservation` says where every replayed entry comes from, `TranscriptMessages` which
message events are in it, `TranscriptCalls` that tool calls do not mix, `TranscriptSettling` which replayed lists are
told again unchanged, `TranscriptCaught` how that shows in the events of a call, and `TranscriptIdempotence` exactly
when replaying a replay changes nothing. `TranscriptReplay` is the loop itself, proved against the position fold.
`TranscriptEvents` and `TranscriptMarkers` say what one more event or marker does to the replay in terms of the payload
fields alone. Both hypotheses of these results are stated as predicates: `Clean`, which can be computed from the log,
and `WellActored`: only message events speak as the assistant, as every writer of the log does
(`agent/adapters/protocol/model_events.py:140-195`, `agent/adapters/protocol/model_events.py:287-291`).

**Streams.** `LineBuffers` gives the incremental splitter a declarative meaning in all its modes and proves that
chunking does not matter. `Gates` reads the events of the phase machine off its input. `Streaming` joins the two.

**Permissions.** `Permissions` treats cover as a preorder, the intersection against a reference meet, and the merge with
its exact laws; `PermissionLoops` has the loops.

**Runs and owners.** `Monkey` and `MonkeyGuard` model a session whose runner is interleaved, at each of its suspensions,
with arbitrary output, stops and errors; its methods are proved against functions of what the session holds.
`ProcessCapability` models the tasks around one lock as interleaved steps; ids of local processes are random
(`agent/capabilities/process.py:33`), those of a sandbox launcher are the launcher's own and unchecked
(`agent/capabilities/process.py:133-147`), so only a launcher or chance can repeat one. `ProcessResources` and
`Workspace` are classes whose ghost books record every attempt and every coding.

**Values.** `FrozenJson` and `Protocol` carry the freeze and thaw laws through the constructors of requests and
commands, `ProtocolAcceptance` says what these accept. `Authorization` folds whole histories. `Quoting` reads quoted
words back by the rules of three shells; the PowerShell form fails for four characters that no label in the command tree
holds today. `OutputBoundary` compares the kept newline counts with a recount. `Text` models `str.strip` and holds what
several modules share.

Python's exceptions are `None` results or `ok` and `raised` flags. Event, field and key names that the code spells out
are constructors, all others carry their text.

## Model

| member | source | states |
|---|---|---|
| Text.StripIdempotent | agent/domain/transcripts.py:326-329 | Neither end of a text field read from a payload is white space, and reading it again gives the same text. |
| Text.StripMeans | agent/domain/transcripts.py:326-329 | What is read is exactly the text between the white space at its two ends. |
| Text.SpacesAre | agent/domain/transcripts.py:326-329 | White space is the 29 characters that Python counts as such. |
| Transcripts.Find | agent/domain/transcripts.py:156-173 | The reverse scan: the last position whose entry has the wanted identity, nothing above it has, and no answer only if none has. |
| Transcripts.Act | agent/domain/transcripts.py:137-314 | A target position an event acts on is the one its lookup gave; an index error can come only from a stored position past the end of the list. |
| Transcripts.ByIdentity | agent/domain/transcripts.py:146-314 | Looking entries up by identity never answers with a position outside the list. |
| Transcripts.Decide | agent/domain/transcripts.py:137-314 | The position-free fold never raises and acts only inside its list. |
| TranscriptReplay.FindLast | agent/domain/transcripts.py:156-173 | The reverse scan loop returns the last position of an identity. |
| TranscriptReplay.FindTarget | agent/domain/transcripts.py:156-208 | The message scan of creations looks in the event's turn; that of updates in any turn when the update names none; a blank item id finds nothing. |
| TranscriptReplay.ReplayLoop.Create | agent/domain/transcripts.py:146-182 | A created message changes the list and the two user tables exactly as one step of the position fold, whatever the state. |
| TranscriptReplay.ReplayLoop.Update | agent/domain/transcripts.py:184-233 | An update amends, removes or is ignored exactly as one step of the position fold, and raises exactly when that step does. |
| TranscriptReplay.ReplayLoop.Compact | agent/domain/transcripts.py:235-253 | A compaction replaces, is ignored or is appended exactly as one step of the position fold, and raises exactly when that step does. |
| TranscriptReplay.ReplayLoop.Begin | agent/domain/transcripts.py:255-272 | A tool start appends and records exactly as one step of the position fold. |
| TranscriptReplay.ReplayLoop.Complete | agent/domain/transcripts.py:286-314 | A completion merges or appends exactly as one step of the position fold, and raises exactly when that step does. |
| TranscriptReplay.ReplayLoop.Pass | agent/domain/transcripts.py:137-314 | One pass over any event is one step of the position fold. |
| TranscriptReplay.TranscriptReplay.Build | agent/domain/transcripts.py:128-316 | Returns what the position fold gives, raising exactly when it does; on clean logs it returns what looking every entry up by identity gives. |
| TranscriptRefinement.WithdrawnKeeps | agent/domain/transcripts.py:139-143 | A replacement marker removes exactly the entries it supersedes. |
| TranscriptRefinement.WithdrawnTwice | agent/domain/transcripts.py:139-143 | Telling a marker twice withdraws nothing more. |
| TranscriptRefinement.PresentationCovers | agent/domain/transcripts.py:93-125 | A presentation marker withdraws everything that markers of its turn without a target withdraw up to its epoch, so telling those first makes no difference. |
| TranscriptMarkers.TargetedMarker | agent/domain/transcripts.py:93-143 | By the payload fields: a marker with a target takes exactly the assistant messages of its turn that have that item id, and leaves all else in order. |
| TranscriptMarkers.ResponseMarker | agent/domain/transcripts.py:107-143 | Without a target, one for a response takes exactly the messages of its turn, epoch and round with a lower attempt. |
| TranscriptMarkers.PresentationMarker | agent/domain/transcripts.py:107-143 | Without a target, one for a presentation takes exactly the messages of its turn with an epoch up to its own. |
| TranscriptMarkers.IdleMarker | agent/domain/transcripts.py:93-143 | Any other event of that kind takes nothing: one not by the assistant, without an epoch, of another scope, or of a response without round or attempt. |
| TranscriptMarkers.OnlyTheLastAttempt | agent/adapters/protocol/model_events.py:123-150 | Of any number of attempts at a response, each announced by its marker, with or without a target, only the last is left in the replay, whole and in order, after what was there before. |
| TranscriptEvents.CreatedByOthers | agent/domain/transcripts.py:146-182 | By the payload fields: a created user message is appended if it has a body; no one else's but the assistant's ever is. |
| TranscriptEvents.CreatedByAssistant | agent/domain/transcripts.py:146-178 | An assistant message with a body takes the place of the last of its turn with its item id, over the fields that were there, and is appended if there is none. |
| TranscriptEvents.UpdatedByAssistant | agent/domain/transcripts.py:184-216 | An update adds its fields to the last assistant message with its item id, of its turn if it names one; an empty body takes that message away; nothing else changes anything. |
| TranscriptEvents.UpdatedByOthers | agent/domain/transcripts.py:218-233 | An update by the user with a body adds its fields to the last user message, of its turn if it names one; nothing else changes anything. |
| TranscriptEvents.Compacted | agent/domain/transcripts.py:235-253 | A compaction with an item id and a number takes the place of the last one of its turn and id exactly if its number is higher; any other is appended. |
| TranscriptEvents.TurnEvents | agent/domain/transcripts.py:274-284 | Stopped observations and the ends of turns are appended, events of unknown kinds never. |
| TranscriptEvents.Started | agent/domain/transcripts.py:255-263 | A tool start is appended, unless it is a patch without its preview object. |
| TranscriptEvents.CompletionTakesPlace | agent/domain/transcripts.py:286-314 | A completion takes the place of the last start of its call, its fields over those of the start, in the turn of the start if it names none; a failed patch is appended instead. |
| TranscriptEvents.ReplCompletionApart | agent/domain/tool_policy.py:63-65 | For `js_repl` it is appended, with the name and the arguments of its start under its own fields. |
| TranscriptEvents.StrayCompletion | agent/domain/transcripts.py:286-301 | Without a call id, or when nothing else speaks of its call, it is appended as it is. |
| TranscriptRefinement.FindAfterRemoval | agent/domain/transcripts.py:139-143 | After a removal an identity sits at its old position exactly when nothing below it was removed. |
| TranscriptRefinement.LookupsAgree | agent/domain/transcripts.py:128-314 | While the five tables are accurate, they answer every event as looking identities up in the list does. |
| TranscriptRefinement.RemovalAccuracy | agent/domain/transcripts.py:139-215 | A removal leaves every stored position right exactly when nothing is removed from below an entry that a table can still reach. |
| TranscriptRefinement.StepRefines | agent/domain/transcripts.py:137-314 | From accurate tables, one pass never raises and does what the identity fold does; the tables stay accurate exactly when the event is safe. |
| TranscriptRefinement.ReplayIsIdentityFold | agent/domain/transcripts.py:128-316 | On every log whose removals lie above all reachable entries, replay through positions returns what the position-free fold returns. |
| TranscriptRefinement.CleanIffAlwaysAccurate | agent/domain/transcripts.py:131-314 | That condition holds exactly when, after every event, each stored position denotes the entry it was recorded for. |
| TranscriptRefinement.StalePositionRaises | agent/domain/transcripts.py:139-303 | Without it replay breaks: for all texts, a message, a tool start, the withdrawal of the message and the completion of the call raise an index error. |
| TranscriptConservation.OpenMeans | agent/domain/transcripts.py:264-287 | A call is pending exactly when its latest merging start has not been completed since. |
| TranscriptConservation.WaitingMeans | agent/domain/transcripts.py:266-293 | Start fields wait for a call exactly when, in the log, its latest start that does not merge was followed only by completions that found the call open; they are the fields of that start. |
| TranscriptConservation.ReachesLatestUser | agent/domain/transcripts.py:218-233 | An update of a user message reaches the latest user message, of its own turn when it names one. |
| TranscriptConservation.StepConserves | agent/domain/transcripts.py:137-314 | Every event keeps conservation. |
| TranscriptConservation.FoldConserves | agent/domain/transcripts.py:128-316 | Over all logs of the position-free fold: places stand in log order; each entry has the stamp of one event and exactly the payload the events about the same message, call or compaction wrote, in log order, no event writing twice; each completion fills one place for good, the one of the start that had its call open, and one that stands apart has exactly the start fields that wait for its call; each start, user message and turn event keeps its place; each sequenced compaction keeps one place, opened by its first event and filled by the first event with the highest number; no two entries share an assistant message or compaction identity; no other event has an entry. |
| TranscriptMessages.FoldKeepsMessages | agent/domain/transcripts.py:139-233 | A message event has written to an entry at the end of any log exactly when it has a body, an update has a message to reach (for a user, a message in the log, of its own turn if it names one; for the assistant, one of its item id standing at that moment), and no later event took that entry away: a marker that supersedes it, or an empty update that names it as the latest of its item id. |
| TranscriptMessages.ReplayConserves | agent/domain/transcripts.py:128-316 | Both at once: nothing the fold returns is invented, doubled or reordered, and nothing that reached it is dropped, message updates included. |
| TranscriptMessages.ReplayKeepsEverything | agent/domain/transcripts.py:128-316 | The same for what replay itself returns on clean logs. |
| TranscriptMessages.UserUpdatesStay | agent/domain/transcripts.py:218-233 | An update of a user message with a body is in the transcript, for good, exactly when an earlier user message with a body was there for it, of its own turn if it names one. |
| TranscriptMessages.SpeechKept | agent/domain/transcripts.py:139-216 | What the assistant said, and each update of it that found its message, is in an entry unless a later event supersedes or empties that entry. |
| TranscriptCalls.CallsDoNotMix | agent/domain/transcripts.py:255-314 | The entries of a tool call in the replay of a log are the replay of that call's own events. |
| TranscriptSettling.SettledIffFixed | agent/domain/transcripts.py:128-316 | A list is a fixed point of the fold exactly when telling each entry after those before it appends it unchanged. |
| TranscriptSettling.OthersTold | agent/domain/transcripts.py:146-253 | Messages, compactions and turn events in a replayed list are always told again unchanged. |
| TranscriptSettling.CallSettles | agent/domain/transcripts.py:255-314 | For the events of one call, replaying the replay changes nothing exactly when no completion would be caught below its place. |
| TranscriptCaught.RetoldOpen | agent/domain/transcripts.py:255-314 | Retelling the list of one call ends with the call open exactly when its events leave it open. |
| TranscriptCaught.RetoldWaits | agent/domain/transcripts.py:266-301 | It ends with start fields waiting exactly when, in the events, the latest start of that kind was spared by every completion since: by a failed patch of an open start, by one that closed an earlier start, or by one that closed a start found open. |
| TranscriptCaught.CaughtInLog | agent/domain/transcripts.py:255-314 | Being caught below its place shows in the events: the completion closes a start that found its call open, and is not a failed patch of that earlier start too; or the call was closed there, and fields wait that neither the start nor the completion logs. |
| TranscriptIdempotence.IdempotentUnlessRecaught | agent/domain/transcripts.py:128-316 | On clean logs replay is idempotent exactly when, in the events of no call, a completion closes in place a start that found the call open (a failed patch of that one aside), or one below which start fields wait that neither it nor the completion logs. |
| TranscriptIdempotence.IdempotentCallByCall | agent/domain/transcripts.py:128-316 | On clean logs replay is idempotent exactly when it is for the events of each call alone. |
| TranscriptIdempotence.ReplayIsIdempotent | agent/domain/transcripts.py:128-316 | On clean logs it is idempotent when no call is started while open nor in both kinds, hence when no call is started twice. |
| TranscriptIdempotence.RestartedCallIsNotIdempotent | agent/domain/transcripts.py:255-314 | A call restarted while open is not: replaying the result merges the completion into the first start as well. |
| LineBuffers.PiecesJoin | backend/mcp_core/core_buffer.py:65-116 | The pieces of a text between its line feeds hold no line feed and join back to the text. |
| LineBuffers.PiecesUnique | backend/mcp_core/core_buffer.py:65-116 | They are the only such pieces. |
| LineBuffers.SplitMeaning | backend/mcp_core/core_buffer.py:65-116 | The one-pass splitter cuts the text at its line feeds after each carriage return has been resolved by the mode. |
| LineBuffers.Resume | backend/mcp_core/core_buffer.py:65-116 | Splitting can stop after any prefix and go on from the rest it left. |
| LineBuffers.ChunkingInvariance | backend/mcp_core/core_buffer.py:65-116 | In every mode, for every split into chunks, the lines fed out and the buffer left are the pieces of the whole text. |
| LineBuffers.DefaultDropsCr | backend/mcp_core/core_buffer.py:102-108 | With neither option set, every carriage return but a final one disappears. |
| LineBuffers.LineBuffer.Feed | backend/mcp_core/core_buffer.py:65-116 | The loop terminates and emits what the splitter gives for buffer and chunk; the carriage return its line-feed branch would strip is never there. |
| LineBuffers.LineBuffer.Flush | backend/mcp_core/core_buffer.py:118-130 | The unfinished rest, without a final carriage return and stripped, if anything is left of it; the buffer is empty afterwards. |
| LineBuffers.LineBuffer.Reset | backend/mcp_core/core_buffer.py:62-63 | Empties the buffer. |
| Gates.Separator | backend/mcp_core/core_buffer.py:142-145 | The first separator of a line, or none. |
| Gates.HearsTheValue | backend/mcp_core/core_buffer.py:142-145 | A gate hears the text after the first " | " of a line, stripped, and a line without one as it is. |
| Gates.HeadsDoNotMatter | backend/mcp_core/core_buffer.py:154-202 | Over any lines, what stands before their first separators makes no difference to the state and the emissions, as long as they are as much the tool's. |
| Gates.GateMachine.FeedChunk | backend/mcp_core/core_buffer.py:154-202 | One line changes the phase, the buckets and the emitted flags as one step of the gate function, and emits its dictionary, in which a collected field may overwrite the phase or the tool. |
| Gates.PassAllLocated | backend/mcp_core/core_buffer.py:154-202 | The state after any lines can be read off four marks in the input: start line, completed start fields, close line, end line. |
| Gates.MarksUnique | backend/mcp_core/core_buffer.py:154-202 | Any input has these marks in one way only. |
| Gates.EmissionsAreTheMarks | backend/mcp_core/core_buffer.py:154-202 | By the marks of its input, a gate emits a start event with the fields collected up to the first completed start section, if that precedes the close line, then a close event with the fields collected from after the close line to the first end line, and nothing else. |
| Gates.EventsSay | backend/mcp_core/core_buffer.py:168-202 | What the emitted dictionaries hold: the phase and the tool unless a collected field has that key, and each collected field, of the close all but the three internal ones. |
| Gates.EmissionsInOrder | backend/mcp_core/core_buffer.py:154-202 | At most one start and one close event, in this order; done exactly after the close event, and absorbing. |
| Streaming.StripIgnoresEnd | backend/mcp_core/core_buffer.py:124-130 | White space at the end does not matter to stripping, so flushing without a final carriage return loses nothing. |
| Streaming.Hear | backend/mcp_core/core_framix.py:89-104 | A line is stripped, dropped when blank, and otherwise fed to the gate. |
| Streaming.Stream | backend/mcp_core/core_framix.py:71-120 | However output is chunked, a gate emits what it emits on the stripped non-blank lines of the whole text. |
| Permissions.CoversReflexive | agent/domain/permission_profiles.py:208-220 | Every profile covers itself. |
| Permissions.CoversTransitive | agent/domain/permission_profiles.py:208-220 | Cover is transitive. |
| Permissions.CoversIffHoldsAll | agent/domain/permission_profiles.py:208-220 | A profile covers one with scalar lists exactly when it holds, at the same path of keys, each object, list, list item and scalar of it. |
| Permissions.IntersectSound | agent/domain/permission_profiles.py:264-285 | Both inputs cover the intersection, and it has no null or empty part. |
| Permissions.PickedInOrder | agent/domain/permission_profiles.py:276-284 | List overlaps stand in the order of the granted items, each found without regard to the others. |
| Permissions.MeetBelow | agent/domain/permission_profiles.py:264-285 | The reference meet, which keeps every overlap of two list items, is below both inputs. |
| Permissions.MeetGreatest | agent/domain/permission_profiles.py:264-285 | It covers every profile without null or empty parts that both inputs cover. |
| Permissions.MaximalIffEnough | agent/domain/permission_profiles.py:264-285 | The intersection covers every profile without null or empty parts that both inputs cover, exactly when, under shared keys and in lists, every overlap of a requested with a granted item is covered by the first overlap of some granted item. |
| Permissions.ScalarListsEnough | agent/domain/permission_profiles.py:276-284 | Lists that hold only scalars meet that condition. |
| Permissions.ScalarIntersectIsMaximal | agent/domain/permission_profiles.py:174-183 | So the intersection is maximal for all profiles whose lists hold only scalars. |
| Permissions.FirstOverlapLoses | agent/domain/permission_profiles.py:276-284 | With objects in lists it can fail, even for a profile intersected with itself, because only the first overlapping candidate counts. |
| Permissions.RecordedGrantIsRequested | agent/stores/approvals/permissions.py:98-102 | What a grant records exceeds neither what was granted nor the request, and without a request is all that was granted, whatever the values are. |
| Permissions.ProfilesIntersectMaximally | agent/domain/permission_profiles.py:174-183 | The intersection of two profiles covers every profile without null or empty parts that both cover exactly under that condition; what is not an object counts as an empty one. |
| Permissions.RecordedGrantIsMaximal | agent/stores/approvals/permissions.py:98-102 | So does what is recorded of a grant with a request; without one it is what was granted. |
| Permissions.GrantAnswersRequest | agent/stores/approvals/permissions.py:98-102 | A grant that covers the request is recorded as a profile that covers it, if their lists hold only scalars. |
| Permissions.ExtendHas | agent/domain/permission_profiles.py:199-204 | An extended list holds what either list held, and starts with the current one. |
| Permissions.ExtendOnce | agent/domain/permission_profiles.py:199-204 | What a list is extended by was not in it, and comes once. |
| Permissions.ExtendAssociates | agent/domain/permission_profiles.py:199-204 | Extending lists is associative, order included. |
| Permissions.MergeCoversFirst | agent/domain/permission_profiles.py:186-205 | A merge covers its first profile. |
| Permissions.MergeCoversSecond | agent/domain/permission_profiles.py:186-205 | It covers the second exactly when the two do not disagree on a shared key. |
| Permissions.MergeIdempotent | agent/domain/permission_profiles.py:186-205 | Merging a profile with itself changes nothing. |
| Permissions.MergeAssociates | agent/domain/permission_profiles.py:186-205 | Merging is associative, list order included, exactly when no first value that a middle one of another kind keeps from growing has a key or a list item to gain from the third. |
| Permissions.SameKindsRegroup | agent/domain/permission_profiles.py:186-205 | So it is when shared keys agree in kind recursively. |
| Permissions.GrantHonoured | agent/stores/approvals/permissions.py:182-185 | The merge of all grants covers one of them exactly when that one does not disagree with the merge of those before it. |
| PermissionLoops.ExtendList | agent/domain/permission_profiles.py:199-204 | The generator loop, which tests each value against the list as it grows, gives the extension. |
| PermissionLoops.MergeInto | agent/domain/permission_profiles.py:192-204 | The key loop gives the merge, in whatever order the keys come. |
| PermissionLoops.MergeProfiles | agent/domain/permission_profiles.py:186-205 | The loop over profiles gives the merge of them all from the left. |
| PermissionLoops.IntersectValue | agent/domain/permission_profiles.py:264-285 | The key loop gives the intersection, in whatever order the keys come. |
| PermissionLoops.IntersectLists | agent/domain/permission_profiles.py:276-284 | The nested loops keep for each granted item its overlap with the first requested item it overlaps. |
| Monkey.HeardExactly | backend/mcp_hub/hub_monkey.py:462-489 | Over any output a segment reports its largest progress figure and observes its event lines, both cut at the target. |
| Monkey.HeardGrows | backend/mcp_hub/hub_monkey.py:462-489 | Counts never decrease and never pass the target. |
| Monkey.CountingKeeps | backend/mcp_hub/hub_monkey.py:491-496 | A segment that ran through unstopped counts as whole; any other counts what was reported or observed; done and remaining events still add up. |
| Monkey.Session.CountSegment | backend/mcp_hub/hub_monkey.py:937-940 | The totals change as that function says. |
| Monkey.Session.HandleMonkeyOutput | backend/mcp_hub/hub_monkey.py:462-489 | One line changes the counts as the counting function says. |
| Monkey.Session.StopProc | backend/mcp_hub/hub_monkey.py:668-691 | Does nothing once finalized; otherwise stops the segment, and the session unless told not to, keeps the given reason and guard reason, and records the error only if one is given; nothing else changes. |
| Monkey.Session.FailStart | backend/mcp_hub/hub_monkey.py:1014-1017 | A start that raises after it created the runner finalizes the session with its error, while the runner goes on. |
| Monkey.Session.Stop | backend/mcp_hub/hub_monkey.py:1028-1036 | Does nothing once finalized; otherwise asks the session to stop and keeps an earlier reason. |
| Monkey.Session.LaunchSegment | backend/mcp_hub/hub_monkey.py:890-914 | A new segment gets the next index and the remaining events as its target; the session is marked as running once the process is linked. |
| Monkey.Session.ResolveFinalState | backend/mcp_hub/hub_monkey.py:522-542 | Error before stop before completion: the status, the reason and the exit code each end as this order demands. |
| Monkey.Session.Finalize | backend/mcp_hub/hub_monkey.py:869-888 | Takes effect once, with the given code and error over those the session had. |
| Monkey.SegmentKeeps | backend/mcp_hub/hub_monkey.py:926-949 | A pass that returns to the loop head leaves nothing remaining; a failed one counts no more than was seen. |
| Monkey.Session.RunSegment | backend/mcp_hub/hub_monkey.py:926-949 | A pass goes through its pauses up to the one that raises, and changes the session as the function of one pass says. |
| Monkey.RunEnds | backend/mcp_hub/hub_monkey.py:916-958 | Whatever is output, whoever stops it before or meanwhile, whether the start fails, and wherever it raises: done and remaining events add up; at most one segment is launched; finalization happens once; finished implies no error, no stop request, exit code zero and all events done; stopped means asked to stop without an error; a run with another exit code counts no more events than were seen; only after a failed start can the session be left marked as running. |
| Monkey.RunExplained | backend/mcp_hub/hub_monkey.py:916-958 | Why it ends so: the start failed exactly if that happened while the runner went on; otherwise the session is stopped exactly if it was to be or someone stopped it, its error is the exception that ended the runner, else the last one a guard gave, else the one before, and a segment was launched exactly if the opening neither raised nor stopped it; after a failed start the error is the first such failure's. |
| Monkey.CalmRun | backend/mcp_hub/hub_monkey.py:916-958 | A run that nothing disturbs has no error and finishes exactly if the exit code is zero, or missing when all events were seen; any other code fails it as `monkey_exit_nonzero`; it counts all events for code zero and otherwise the larger of reported and observed ones. |
| Monkey.Session.Runner | backend/mcp_hub/hub_monkey.py:916-958 | The loop ends in the state that the function of a whole run gives, for any session that `start` has reset. |
| MonkeyGuard.MonkeySession.ResetGuardWindow | backend/mcp_hub/hub_monkey.py:453-460 | Clears the misses and opens a new grace window; nothing else changes. |
| MonkeyGuard.WindowIgnoresEarlyMisses | backend/mcp_hub/hub_monkey.py:453-460 | While the guard is unarmed, misses within the grace from the opening of the window leave no trace, and the first one from its end on counts and arms it. |
| MonkeyGuard.MonkeySession.MarkForegroundOk | backend/mcp_hub/hub_monkey.py:498-520 | Counts the hit, arms the guard and opens a new window. |
| MonkeyGuard.MonkeySession.RecordGuardMiss | backend/mcp_hub/hub_monkey.py:598-613 | Arms the guard and counts the miss. |
| MonkeyGuard.MonkeySession.GuardForeground | backend/mcp_hub/hub_monkey.py:697-765 | The sampling loop: observing, the loss count grows by the number of episodes; stopping or failing, it returns at the first sample that completes an episode. |
| MonkeyGuard.EpisodesGrow | backend/mcp_hub/hub_monkey.py:741-752 | A sample completes an episode exactly when it is the miss that brings the last run to the threshold. |
| MonkeyGuard.ObserveCountsEpisodes | backend/mcp_hub/hub_monkey.py:733-752 | Over all samples and clock readings the observing guard counts exactly the maximal runs of counted misses that reach the threshold. |
| MonkeyGuard.StopAtFirstEpisode | backend/mcp_hub/hub_monkey.py:733-765 | The stopping guard triggers exactly when there is such a run, and counts one loss. |
| Authorization.GenerationIsHighestSince | agent/domain/mcp_authorization.py:40-68 | Over every history of views, failures and acceptances the status carries the highest generation seen since the last view without one. |
| Authorization.HighestUnlessForgotten | agent/domain/mcp_authorization.py:40-68 | It carries the highest generation ever seen exactly when every generation seen is reached again since the last view without one. |
| Authorization.VerificationIsLastVerdict | agent/domain/mcp_authorization.py:40-99 | Starting outside `unsupported`, the verification is decided by the last request outcome, view without a generation or change to a higher generation alone. |
| Authorization.CredentialsAreLastReport | agent/domain/mcp_authorization.py:40-89 | The expiry is that of the last view without a generation or at least as new as those since; the credentials are what that view or a later storage failure says. |
| Authorization.ReadRightly | agent/domain/mcp_authorization.py:40-99 | At every moment reauthorization is required exactly if the start or an event demanded it and none has lifted it since; the configured states last exactly until the first view that counts. |
| Authorization.StateIsLastWord | agent/domain/mcp_authorization.py:40-99 | The state after any history is what the last event with a word on it says (OAuth for a stored or expired token, reauthorization for recovery marks and such failures, unavailable for failing storage, not logged in for a registered or removed record or a missing login), or that of the start, made anonymous by a success while unknown or not logged in, and unknown by a later view that says nothing; configured headers and tokens survive failures. |
| Authorization.ErrorIsLastWord | agent/domain/mcp_authorization.py:40-99 | The error after any history is what the last event that says anything of it makes of it: a failure its own, an acceptance none, a view that counts its own or none, unless it keeps the error of its generation. |
| Authorization.DemandStandsUntilLifted | agent/domain/mcp_authorization.py:40-99 | Over a history the demand to reauthorize stands at every moment exactly when no event lifts it, read off the events alone: a storage failure, or a view no older than the generations since the last view without one that says there is no storage or, if its generation is not among those, shows other credentials than a recovery mark. |
| Authorization.ReauthorizationPersists | agent/domain/mcp_authorization.py:40-99 | No view of the same or an older generation that is not `unavailable`, no acceptance and no failure other than of storage lifts it, over any history. |
| Authorization.RecoveryStands | agent/domain/mcp_oauth.py:182-197 | After any history in which no newer generation is current, the view of a stored recovery mark demands reauthorization, and the demand stands over any views of the same or an older generation that are not `unavailable`, acceptances and failures other than of storage. |
| Authorization.RecordReported | agent/domain/mcp_oauth.py:182-197 | After any such history and the view of a record, the status has the record's generation, an expiry only for a stored token, `expired` exactly when that has passed, and `missing` exactly when there is no record; the state is OAuth for a token and not logged in for a record without one, unless reauthorization was demanded of that generation. |
| Authorization.StorageFailureForgets | infrastructure/mcp/oauth_credentials.py:398-403 | A failure to read the record gives a view without a generation, after which an older version counts again. |
| FrozenJson.FreezeThaws | agent/protocol/json_value.py:30-61 | Freezing accepts exactly finite plain data with text keys, returns immutable data, and thawing gives the data back with tuples as lists. |
| FrozenJson.ThawFreezes | agent/protocol/json_value.py:30-61 | Thawed immutable data freezes to what it was. |
| FrozenJson.FreezeStable | agent/protocol/json_value.py:30-61 | Freezing what was thawed from a frozen value gives that value. |
| FrozenJson.RefreezeIffFlat | agent/protocol/json_value.py:30-52 | Freezing a frozen value without thawing it works exactly when it holds no mapping. |
| Protocol.NewModelIsValid | agent/protocol/model.py:71-156 | Every constructed model request has stripped identities, immutable parts, a positive timeout and no reserved option or metadata key. |
| Protocol.ModelRoundTrip | agent/protocol/model.py:195-291 | Such a request comes back from its dictionary unchanged. |
| Protocol.ModelPersistsArguments | agent/protocol/model.py:71-213 | Its dictionary stores each constructor argument under its own name, identities stripped and data unchanged. |
| ProtocolAcceptance.ModelAccepts | agent/protocol/model.py:71-156 | A model request is constructed exactly from texts that are not blank, storable mappings and lists, and a positive finite timeout, without a reserved option or metadata name. |
| ProtocolAcceptance.ModelDictAccepts | agent/protocol/model.py:215-291 | It is read back exactly from dictionaries with these eleven entries, of these types, that the constructor accepts. |
| Protocol.NewReviewIsValid | agent/protocol/model.py:308-332 | Every constructed review request has stripped identities, immutable parts and a read-only execution. |
| Protocol.ReviewRoundTrip | agent/protocol/model.py:340-407 | Such a request comes back from its dictionary unchanged. |
| Protocol.ReviewPersistsArguments | agent/protocol/model.py:308-352 | Its dictionary stores each constructor argument under its own name. |
| ProtocolAcceptance.ExecutionChecked | agent/protocol/model.py:510-560 | The check of the frozen execution is the check of the given one: a read-only sandbox, only tools that declare to be read-only, and no ordinary input. |
| ProtocolAcceptance.ReviewAccepts | agent/protocol/model.py:308-332 | A review request is constructed exactly from such an execution, texts that are not blank, storable mappings, inline delivery and one of the two modes. |
| ProtocolAcceptance.ReviewDictAccepts | agent/protocol/model.py:354-407 | It is read back exactly from dictionaries with these nine entries, of these types, that the constructor accepts. |
| Protocol.RemoteRoundTrip | agent/protocol/model.py:412-430 | Every constructed request comes back from its kind and dictionary. |
| Protocol.NewTurnIsValid | agent/protocol/commands.py:244-328 | Every constructed turn command has stripped identities and labels and immutable parts. |
| Protocol.TurnRoundTrip | agent/protocol/commands.py:363-416 | Such a command comes back from its dictionary unchanged, absent optional parts included. |
| Protocol.TurnPersistsArguments | agent/protocol/commands.py:244-416 | Its dictionary stores each argument; a blank idempotency key becomes the command id, a blank cause null. |
| ProtocolAcceptance.TurnAccepts | agent/protocol/commands.py:244-328 | A turn command is constructed exactly from texts that are not blank, any message text, storable attachments and optional parts, and a storable trace context. |
| ProtocolAcceptance.TurnDictAccepts | agent/protocol/commands.py:363-391 | It is read back exactly from mappings of its kind with such entries; missing attachments are none and an empty trace context is an empty object. |
| Protocol.NewReviewCommandIsValid | agent/protocol/commands.py:470-497 | Every constructed review command has stripped identities and labels and immutable parts. |
| Protocol.ReviewCommandRoundTrip | agent/protocol/commands.py:526-602 | Such a command comes back from its dictionary unchanged. |
| Protocol.ReviewCommandPersistsArguments | agent/protocol/commands.py:470-602 | Its dictionary stores each argument, the request as the request's own dictionary. |
| ProtocolAcceptance.ReviewCommandAccepts | agent/protocol/commands.py:470-497 | A review command is constructed exactly from texts that are not blank, an optional storable environment and a storable trace context. |
| ProtocolAcceptance.ReviewCommandDictAccepts | agent/protocol/commands.py:526-579 | It is read back exactly from dictionaries with these eight entries, of these types, whose request is read back. |
| ProtocolAcceptance.StoredTexts | agent/protocol/commands.py:623-634 | The texts stored for kinds, delivery and modes. |
| ProtocolAcceptance.LabelsStored | agent/protocol/commands.py:306-327 | A key is stored stripped, and the command id for an empty one; a cause is stored stripped, and null for an empty one. |
| Protocol.CommandRoundTrip | agent/protocol/commands.py:623-634 | Every constructed command is parsed back from its dictionary. |
| ProcessCapability.StepKeeps | agent/capabilities/process.py:125-188 | Every step of every task keeps the lock, the account of handles and the table; one that delivers no handle under a name in the table keeps custody of all handles too. |
| ProcessCapability.ReusesIffRepeats | agent/capabilities/process.py:125-188 | A run delivers a handle under a name in the table exactly when it delivers two handles under one name. |
| ProcessCapability.NoLeakUnlessReused | agent/capabilities/process.py:125-188 | In every interleaving, each handle a spawn returned is in the table or with exactly one close call, never both, exactly if the run never delivered two handles under one session id. |
| ProcessCapability.NothingSpawnsAfterClose | agent/capabilities/process.py:125-188 | Once a close has set the flag no spawn returns a handle any more and the table stays empty. |
| ProcessCapability.RunBecomes | agent/capabilities/process.py:125-188 | What becomes of every call in every interleaving: a spawn that gets the lock before any close returns the handle created for it, or raises when that is refused; one that gets it later raises; the first close reaps and any later one does nothing. |
| ProcessCapability.SpawnSucceeds | agent/capabilities/process.py:125-172 | On an open capability with a free lock a spawn can get it and return the handle created, which is new and in the table. |
| ProcessCapability.CloseSucceeds | agent/capabilities/process.py:174-188 | With a free lock a close can get it: the first sets the flag and reaps all that is in the table, a later one does nothing. |
| ProcessCapability.LostStays | agent/capabilities/process.py:174-188 | A handle that is neither in the table nor with a close call stays so under every step. |
| ProcessResources.SuccessesInOrder | agent/harness/process_resources.py:75-84 | The successful attempts are at different steps, in order, below the count kept. |
| ProcessResources.EveryStepSucceeded | agent/harness/process_resources.py:75-84 | Every step below that count did succeed. |
| ProcessResources.DoneInOrder | agent/harness/process_resources.py:54-66 | What was done is a beginning of the eleven steps in their frozen order, whatever failed and was tried again. |
| ProcessResources.ProcessResourceOwner.Close | agent/harness/process_resources.py:69-84 | A call ends at the first step that fails, or at the end; a normal return means all steps have succeeded; a raise leaves the failed step as the next one; when all is done nothing runs. |
| ProcessResources.ProcessResourceOwner.CloseMany | agent/harness/process_resources.py:69-84 | Over any calls and failures each call resumes where the one before ended; once a call returns normally all later ones do. |
| Workspace.CustodyOverRuns | agent/harness/workspace_runtime.py:62-121 | Over any run of calls each coding is in one place, closing it is started at most once, and exactly when it is closing or closed; after the close the owner holds none unclosed but one activated later. |
| Workspace.ClosedEndures | agent/harness/workspace_runtime.py:88-117 | Once closed the owner stays closed, and only activations still change anything. |
| Workspace.LateActivation | agent/harness/workspace_runtime.py:79-121 | After the close the owner has a coding in use exactly when something was activated later; that one is not closed. |
| Workspace.LateActivationHappens | agent/harness/workspace_runtime.py:79-121 | Such runs exist: what was prepared before the close can be activated after it. |
| Workspace.WorkspaceRuntimeOwner.constructor | agent/harness/workspace_runtime.py:29-60 | The initial resources come from one bundle and their coding is in use. |
| Workspace.WorkspaceRuntimeOwner.Prepare | agent/harness/workspace_runtime.py:68-77 | Raises once closed; otherwise the caller gets new resources of one bundle, and the active workspace stays as it is even when creating fails. |
| Workspace.WorkspaceRuntimeOwner.Activate | agent/harness/workspace_runtime.py:79-86 | All four resources switch to the given ones and the previous ones go to the caller, whatever is given; custody is kept when the caller held them. |
| Workspace.WorkspaceRuntimeOwner.Retire | agent/harness/workspace_runtime.py:166-179 | Any coding is closed by a task when a loop runs, and kept for the final close otherwise; custody is kept when its holder gave it up before the close. |
| Workspace.WorkspaceRuntimeOwner.CloseTaskDone | agent/harness/workspace_runtime.py:181-185 | The task leaves the set of closing tasks. |
| Workspace.WorkspaceRuntimeOwner.Replace | agent/harness/workspace_runtime.py:62-66 | A new coding is in use and the old one given up; a failure while preparing changes neither. |
| Workspace.WorkspaceRuntimeOwner.Close | agent/harness/workspace_runtime.py:88-121 | Every coding not handed out is closed; a second call does nothing; only errors of the capabilities are raised. |
| Quoting.PosixReadsBack | frontends/cli/completion.py:222-224 | For every text, the quoted form reads as one word equal to it, by sections 2.2.2 and 2.2.3 of POSIX.1-2017 XCU. |
| Quoting.PowershellReadsBackIff | frontends/cli/completion.py:227-229 | By section 2.3.5.2.2 of the Windows PowerShell language specification, where U+2018 to U+201B are single quotes too, the quoted form reads back as the text exactly when the text holds none of those four characters, whichever character of a doubled quote is kept. |
| Quoting.CurlyQuoteIsLost | frontends/cli/completion.py:227-229 | The quoted right quotation mark U+2019 does not read as a string at all. |
| Quoting.FishTwoPasses | frontends/cli/completion.py:232-234 | The two replacements in a row are one escape per character. |
| Quoting.FishReadsBack | frontends/cli/completion.py:232-234 | For every text, the Fish form reads back as it, where a backslash escapes a backslash or a quote. |
| OutputBoundary.TrailingMeans | frontends/output/boundary.py:51-59 | The count is the length of the longest tail of newlines. |
| OutputBoundary.TrailingAppends | frontends/output/boundary.py:61-72 | Appending counts on from the earlier text only when the new text is nothing but newlines. |
| OutputBoundary.OutputBoundaryState.CountTrailingNewlines | frontends/output/boundary.py:51-59 | The backward loop returns that count. |
| OutputBoundary.OutputBoundaryState.ObserveDisplay | frontends/output/boundary.py:89-94 | The state is exact for the displayed text. |
| OutputBoundary.OutputBoundaryState.ObserveRaw | frontends/output/boundary.py:96-103 | Raw text keeps an exact state exact, exactly unless it is empty after text that ends a line. |
| OutputBoundary.OutputBoundaryState.ObserveAll | frontends/output/boundary.py:89-103 | After a display and any non-empty raw writes the state equals a recount of all they wrote. |
| OutputBoundary.PrefixMeans | frontends/output/boundary.py:5-31 | Nothing is put before the first output, between stream texts, or before a stream text that starts with a newline; otherwise as many newlines as are missing to two. |
| OutputBoundary.OutputBoundaryState.Prefix | frontends/output/boundary.py:74-87 | The prefix is that, and after exact observations it leaves two newlines, or as many more as there were. |
| OutputBoundary.OutputBoundaryState.Clear | frontends/output/boundary.py:105-109 | Back to the initial state. |

## Left out

- TranscriptReplay.TranscriptReplay.Build: on logs that are not clean it is tied to the position fold only; beyond the family of index errors, what a stale position overwrites is not described.
- TranscriptRefinement.ReplayIsIdentityFold: assumes that only message events carry the actor `assistant`, as every writer of the log sees to.
- TranscriptCalls.CallsDoNotMix: speaks of the position-free fold, hence of `build` only on clean logs.
- Transcripts.Act: Python details of payload values are not modelled: `True == 1`, floats and NaN, timestamps beyond equality, and reading the log from its file.
- Gates.PassAllLocated: the predicates stay open parameters, so nothing here depends on what Memrix or Framix look for.
- Streaming.Stream: one gate at a time, since gates share nothing but the lines; decoding, ANSI stripping and the fail-fast texts of a driver, which look at chunks as well as lines, are left out.
- PermissionLoops.MergeInto: values are immutable here, so deep copies, aliasing and the claim that inputs are never mutated are not captured.
- Permissions.GrantHonoured: path normalisation and the hash of a profile are not part of this model.
- Monkey.Session.HandleMonkeyOutput: the two patterns that classify a line are parameters; the tail text and the snapshots are left out.
- Monkey.Session.StopProc: shutting the subprocess down and patching the stored session are left out.
- Monkey.Session.LaunchSegment: the command, the reader and guard tasks and the guard window belong to other models or are left out.
- Monkey.Session.Runner: cancelling the runner task, which skips its error branch, is not modelled.
- MonkeyGuard.MonkeySession.MarkForegroundOk: the recorded focus is left out.
- MonkeyGuard.ObserveCountsEpisodes: speaks of the guard of one segment on a fresh session, since a session launches at most one.
- Protocol.CommandRoundTrip: error kinds collapse to `None`, `str()` of values that are not text is a parameter, and freshly made ids and fingerprints are not part of this model.
- ProcessCapability.NoLeakUnlessReused: stated of a state machine instead of a class, because it is about interleavings; sandbox refusals and failed launches are one outcome, each delivered handle is a new one, and the reaping of single handles and cancellation are not modelled.
- ProcessResources.ProcessResourceOwner.Close: calls run one after the other, as the lock makes them.
- Workspace.CustodyOverRuns: calls run one after the other, so a replacement during a close is not modelled; activating resources that the caller does not hold is outside these runs.
- Workspace.WorkspaceRuntimeOwner.Retire: closing tasks are known by their coding, so two tasks for one coding count as one.
- `RunStatus` transitions, tool policy, hook trust and command-line tables are not part of this model.
