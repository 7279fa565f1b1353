# A verified model of the agent CLI's core

This project models, in Dafny, the core of a terminal chat agent written in
Python (a loop that streams a language model's answers, runs the tools it
asks for, and shows their progress in a live status view). What is modelled:

- **agent_runner.dfy** (`AgentRunner`) — the glue between the agent's event
  stream and the status view:
  - the short preview of a tool result;
  - the handling of a "model" chunk, which registers new tool calls and marks them running;
  - the handling of a "tools" chunk, which marks pending calls running and shows results;
  - the run loop, which clears the view, feeds it every chunk, collects the messages and finalizes the view.
- **tool_status_display.dfy** (`StatusDisplay`) — the status view as a class:
  - its fields: the sequence of tool batches and communication items, the live flag and the cost line;
  - its operations: registering calls, updating a call's status, adding messages and diffs, clearing, finalizing, looking up a call and laying out the panels;
  - the helpers that shorten argument lists and split a unified diff off a tool result.
- **cancel.dfy** (`Cancel`) — the cancellation token and the exception it raises.
- **session_store.dfy** (`SessionStore`) — saving and loading conversations:
  - the file system is a map from path to contents, with a set of paths whose writes raise;
  - writes go through a ".tmp" file that is then renamed;
  - a "latest_session" pointer is kept;
  - the background autosaver is a class whose worker loop is modelled one pass at a time.
- **claude_memory.dfy** (`ClaudeMemory`) and **posix_path.dfy** (`PosixPath`) — collecting the CLAUDE.md memory files:
  - fenced and inline code is removed before `@path` imports are parsed;
  - imports are resolved and read recursively up to depth 5, and no file is read twice;
  - the files are found from the start directory upwards and in nested directories;
  - the path functions of `os.path` that this uses are modelled in `PosixPath`.
- **commands.dfy** (`Commands`) and **lists.dfy** (`Lists`) — slash commands:
  - splitting "/cmd rest" into its two parts;
  - the sorted help text;
  - prefix completion.
- **provider_registry.dfy**, **model_registry.dfy**, **models.dfy** — model identifiers:
  - "provider:model" parsing and formatting;
  - choosing the OpenAI chat models;
  - the sorted, de-duplicated list of selectable models.
- **normalize_messages.dfy** (`NormalizeMessages`) — flattening AI messages whose content is a list of blocks, before token counting.
- **util.dfy** (`Util`) and **tools.dfy** (`Tools`) — the tools' helpers and the non-I/O tools:
  - the decorator that refuses a repeated tool call;
  - the whitespace clean-up of extracted page text;
  - `log_tool`'s line;
  - the reply of `fetch`;
  - the `trim_message` tool.
- **text.dfy**, **sorting.dfy**, **options.dfy**, **messages.dfy** — shared definitions:
  - Python string operations (`strip`, `split`, `splitlines`, `find`, `join`, `str(int)`) and code-point string order;
  - a stable sort by a string key and `sorted(set(...))`;
  - Option and Result;
  - the message and value datatypes.

Objects whose fields the source updates are Dafny classes with `modifies`
clauses. These are:

- the status view;
- the cancellation token;
- the autosaver;
- the file store;
- the duplicate refuser's cache;
- the conversation `trim_message` edits.

Loops of the source are methods with loop invariants, and each is proved
equal to a specification function. The properties the code promises are then
proved about those functions as lemmas: round trips, idempotence, membership
in both directions, order and "nothing else changes".

## Model

| member | source | states |
|---|---|---|
| AgentRunner.CleanLineShape | src/agent_runner.py:18-24 | a shown line keeps only printable characters; it is kept whole when it fits; otherwise it is exactly max_line_length long, ends with "..." and starts with the first max_line_length-3 printable characters |
| AgentRunner.PreviewLinesShape | src/agent_runner.py:14-28 | a preview has at most max_lines lines (one when max_lines < 1), each printable and within max_line_length |
| AgentRunner.CleanedLinesPrefix | src/agent_runner.py:17-28 | the lines kept from the first lines of the window are a prefix of those kept from the whole window, so the loop's break only cuts the list |
| AgentRunner.ExtractResultPreview | src/agent_runner.py:8-31 | the preview equals the specification `Preview`; non-string content previews to "" |
| AgentRunner.CollectPreviewLines | src/agent_runner.py:17-28 | the loop with its break collects exactly the first max_lines cleaned non-blank lines of the window |
| AgentRunner.PreviewSplitsIntoLines | src/agent_runner.py:31 | splitting a non-empty preview on "\n" gives back exactly its lines |
| AgentRunner.PreviewOfShortResult | src/agent_runner.py:14-31 | a text of at most max_lines short, printable, non-blank, stripped lines previews to itself |
| AgentRunner.ApplyAllConcat | src/agent_runner.py:57-61 | applying two lists of view calls one after the other is applying their concatenation |
| AgentRunner.IdsOfUnseen | src/agent_runner.py:44 | the ids of calls that were not seen are disjoint from the seen set |
| AgentRunner.CommunicateIds | src/agent_runner.py:50-52 | the communicate ids are ids of the new calls, and every new communicate call's id is one |
| AgentRunner.RunningCalls | src/agent_runner.py:60-61 | one RUNNING status update per normal call, in call order |
| AgentRunner.ToolRequests | src/agent_runner.py:43-61 | for one AI message's requests, the seen and communicate sets only grow, and every newly recorded communicate id is a newly seen id |
| AgentRunner.AgentMessage | src/agent_runner.py:42-66 | the seen and communicate sets only grow, and every newly recorded communicate id is a newly seen id; routing is stated by `AgentMessageRouting` |
| AgentRunner.NewNormalCalls | src/agent_runner.py:44-54 | the new normal calls are exactly the message's requests that are neither seen nor "communicate" |
| AgentRunner.ToolRequestsRouting | src/agent_runner.py:44-61 | only unseen, non-communicate requests of the message are registered, once and first; every request id ends up seen; every new communicate id is recorded; every unseen normal request is registered |
| AgentRunner.AgentMessageRouting | src/agent_runner.py:42-66 | the same for any message, and a tool result for a communicate call causes no view call |
| AgentRunner.MessageRegisteredIds | src/agent_runner.py:44-58 | the ids one message registers are new and end up seen |
| AgentRunner.AgentChunkRouting | src/agent_runner.py:40-66 | over a whole chunk: registered ids were unseen before and are seen after, no communicate request is registered, no id is registered twice, and every AI request id ends up seen |
| AgentRunner.RegisteredIdsConcat | src/agent_runner.py:57-58 | the ids registered by two call lists together are the union of each list's |
| AgentRunner.RegisteredIdsOne | src/agent_runner.py:57-58 | the ids registered by one call are among those registered by a list holding it |
| AgentRunner.SplitNewCalls | src/agent_runner.py:47-54 | the seen set gains every new id, the communicate set gains the communicate ids, and the normal calls are the other new calls in order |
| AgentRunner.RegisterRunning | src/agent_runner.py:57-61 | the view ends as if the normal calls were registered and then each set RUNNING |
| AgentRunner.HandleAgentMessage | src/agent_runner.py:42-61 | one AI message updates the tracking sets and the view as `AgentMessage` specifies |
| AgentRunner.ProcessAgentChunk | src/agent_runner.py:34-68 | the returned sets and the view's new sequence are those of `AgentChunk`, message by message, so `AgentChunkRouting` holds of what the view receives |
| AgentRunner.ResultCall | src/agent_runner.py:82-90 | a message produces a view call exactly when it is a tool message |
| AgentRunner.UpdateAtVisited | src/agent_runner.py:74-78 | setting a visited pending entry to RUNNING changes no other entry and keeps every batch's shape, so the live iteration sees later entries unchanged |
| AgentRunner.MarkPendingRunning | src/agent_runner.py:74-78 | iterating the live sequence leaves it as the list of RUNNING updates computed from the sequence at the start |
| AgentRunner.ShowToolResults | src/agent_runner.py:81-90 | the view receives exactly the result calls of the tool messages, in order |
| AgentRunner.ProcessToolsChunk | src/agent_runner.py:71-90 | the view is first updated for pending calls, then for the results, as specified |
| AgentRunner.RunChunks | src/agent_runner.py:118-130 | every state of the run keeps the view well formed, with distinct ids in each batch |
| AgentRunner.RunAgentWithDisplay | src/agent_runner.py:93-136 | the returned messages are all messages of all model and tools updates in order; the view ends as the run specifies, finalized, with no cost line |
| Cancel.CancelMessage | src/cancel.py:23-25 | the exception's message is never empty, and it is the reason when a non-empty reason was given |
| Cancel.CancelToken.constructor | src/cancel.py:11-13 | a new token is not set and has no reason |
| Cancel.CancelToken.Cancel | src/cancel.py:15-17 | the token is set and remembers the reason |
| Cancel.CancelToken.Check | src/cancel.py:19-25 | nothing is raised before cancellation; after it, AgentCancelled is raised with the reason, or "cancelled" without one |
| StatusDisplay.IndexOf | src/tool_status_display.py:128-129 | the index found is the first entry with that id, and none is found exactly when no entry has it |
| StatusDisplay.Lookup | src/tool_status_display.py:262-266 | a lookup returns an entry with that id, and returns None exactly when there is none |
| StatusDisplay.Put | src/tool_status_display.py:114-120 | dict assignment: afterwards the id maps to the new call, every other id maps to what it did, and ids stay distinct |
| StatusDisplay.NewCall | src/tool_status_display.py:114-120 | a registered call starts PENDING, with no result, under the request's id |
| StatusDisplay.PutAllLastWins | src/tool_status_display.py:113-120 | when one batch registers an id twice, the last registration wins |
| StatusDisplay.PutAllOthers | src/tool_status_display.py:113-120 | ids not registered in the batch keep their entries |
| StatusDisplay.RegisteredShape | src/tool_status_display.py:109-120 | a new batch is appended exactly when the sequence is empty or ends in a communication item; earlier items are unchanged and the last item is a batch |
| StatusDisplay.RegisteredAreFresh | src/tool_status_display.py:113-120 | every registered id is in the last batch, PENDING and without result |
| StatusDisplay.FirstBatchFrom | src/tool_status_display.py:128-132 | finds the first batch containing the id, or none when no batch does |
| StatusDisplay.UpdatedUnknownId | src/tool_status_display.py:128-137 | updating an id that no batch holds changes nothing |
| StatusDisplay.UpdatedOnlyFirstEntry | src/tool_status_display.py:128-137 | an update changes only the entry in the first batch holding the id, setting its status and, when given, its result |
| StatusDisplay.LayoutCounts | src/tool_status_display.py:218-250 | the layout has one tool panel per call and one message or diff panel per communication item |
| StatusDisplay.ToolStatusDisplay.constructor | src/tool_status_display.py:74-80 | a new view is empty, not live, with no cost line |
| StatusDisplay.ToolStatusDisplay.StartLive | src/tool_status_display.py:82-104 | starting makes the view live and changes nothing else |
| StatusDisplay.ToolStatusDisplay.RegisterCalls | src/tool_status_display.py:106-124 | the sequence becomes `Registered(old, calls)` and the view is live |
| StatusDisplay.ToolStatusDisplay.UpdateStatus | src/tool_status_display.py:126-137 | the sequence becomes `Updated(old, id, status, result)`; nothing else changes |
| StatusDisplay.ToolStatusDisplay.AddCommunication | src/tool_status_display.py:139-144 | exactly one message item is appended |
| StatusDisplay.ToolStatusDisplay.AddDiff | src/tool_status_display.py:269-277 | exactly one diff item is appended |
| StatusDisplay.ToolStatusDisplay.Clear | src/tool_status_display.py:159-166 | the view is emptied, stopped, with no cost line |
| StatusDisplay.ToolStatusDisplay.Finalize | src/tool_status_display.py:252-259 | the view stops being live and keeps its content |
| StatusDisplay.ToolStatusDisplay.GetToolCall | src/tool_status_display.py:261-267 | returns the entry for the id from the first batch holding it, or None exactly when no batch holds it |
| StatusDisplay.ToolStatusDisplay.CreateDisplay | src/tool_status_display.py:218-250 | the panels are the tool panels in order, then the cost line, then the communication panels |
| StatusDisplay.FormatArgsOneLine | src/tool_status_display.py:35-43 | "" without arguments; the escaped "k=v" list when it fits; otherwise cut to max_len with "..." |
| StatusDisplay.ExtractUnifiedDiff | src/tool_status_display.py:46-60 | the text after the first "\nDiff:\n" marker with newlines stripped; without a marker, the left-stripped text exactly when it starts with "--- " and contains "\n+++ "; never an empty diff; None for "" |
| StatusDisplay.RemoveDiffFromResult | src/tool_status_display.py:63-70 | the text before the diff marker with trailing newlines stripped, or the text itself without a marker; the result never contains the marker |
| SessionStore.AgentStateDir | src/session_store.py:12-19 | the state directory is absolute when the home directory is |
| SessionStore.PathsDistinct | src/session_store.py:40-41 | the session file, the latest pointer and their ".tmp" files are four different paths |
| SessionStore.SessionPathInjective | src/session_store.py:40-41 | different session ids have different session file names (of the concatenated path; see "## Left out") |
| SessionStore.FileStore.constructor | src/session_store.py:44-67 | the store holds the given files and failing paths |
| SessionStore.FileStore.Write | src/session_store.py:57-60 | a write sets exactly that path, or raises for a failing path and changes nothing |
| SessionStore.FileStore.Replace | src/session_store.py:61 | a rename moves the contents from source to destination, or raises (missing source, failing destination) and changes nothing |
| SessionStore.Saved | src/session_store.py:44-67 | after saving, the session file holds the messages, latest names the session, no ".tmp" file is left and no other path changes |
| SessionStore.AfterSave | src/session_store.py:57-67 | a save that stops at its first raising step changes no path other than the session file, the latest pointer and their ".tmp" files |
| SessionStore.AfterSaveSucceeds | src/session_store.py:57-67 | when no step raises, the save ends as `Saved` |
| SessionStore.AfterSaveSessionFails | src/session_store.py:57-61 | when the session's write or rename raises, the session file and the latest pointer are unchanged (a ".tmp" file may be left) |
| SessionStore.AfterSaveLatestFails | src/session_store.py:61-67 | when only the latest pointer's write or rename raises, the session is saved and loads by id, but latest still names the earlier session |
| SessionStore.SaveSteps | src/session_store.py:57-67 | the four successful steps together give `Saved` |
| SessionStore.SaveMessages | src/session_store.py:44-67 | the method succeeds exactly when none of the four paths fails, and leaves the files as `AfterSave` says, with the effect of the steps before a failure kept |
| SessionStore.LoadSession | src/session_store.py:83-89 | loading a given id fails with "not found" exactly when its file is missing, and otherwise returns that id |
| SessionStore.Load | src/session_store.py:70-89 | without an id, the latest pointer is followed and a missing pointer is its own error; with an id, that session is loaded |
| SessionStore.LoadMessages | src/session_store.py:70-89 | the method returns what `Load` specifies |
| SessionStore.LoadAfterSave | src/session_store.py:44-89 | loading a session just saved returns its messages |
| SessionStore.LoadLatestAfterSave | src/session_store.py:64-81 | loading without an id after a save returns that session |
| SessionStore.SavedKeepsOtherSessions | src/session_store.py:44-67 | saving one session leaves every other session's file as it was |
| SessionStore.SaveTwice | src/session_store.py:44-89 | after two saves, latest names the second session and both sessions load |
| SessionStore.SessionAutosaver.constructor | src/session_store.py:102-110 | a new autosaver has nothing pending, no event, no stop request and a running worker |
| SessionStore.SessionAutosaver.RequestSave | src/session_store.py:112-116 | the newest messages replace any pending ones and the event is set |
| SessionStore.SessionAutosaver.Close | src/session_store.py:118-122 | stop is requested and the worker is woken |
| SessionStore.SessionAutosaver.TakePending | src/session_store.py:129-131 | the worker takes the pending messages, clearing them and the event |
| SessionStore.SessionAutosaver.SavePending | src/session_store.py:133-138 | taken messages are saved under the autosaver's session id as `AfterSave` says, a raised error being swallowed; nothing is saved when none were taken |
| SessionStore.SessionAutosaver.FinishIfStopped | src/session_store.py:140-143 | the worker stops exactly when stop was requested and nothing is pending |
| SessionStore.SessionAutosaver.RunPass | src/session_store.py:124-143 | one wake-up saves the last requested messages (if any, as far as the store lets it) and the worker keeps running exactly when no stop was requested |
| ClaudeMemory.RemoveBlocksExact | src/claude_memory.py:21-23 | removing fenced blocks changes the text exactly when it has a complete block |
| ClaudeMemory.RemoveSpansExact | src/claude_memory.py:25 | after removing inline spans none is left, and the text changes exactly when it had one |
| ClaudeMemory.ImportOf | src/claude_memory.py:15-18 | a line gives at most one import: a non-empty stripped path from a line starting with "@" |
| ClaudeMemory.ImportsOf | src/claude_memory.py:35-41 | at most one import per line, each non-empty and stripped |
| ClaudeMemory.ParseImportPaths | src/claude_memory.py:29-42 | the loop collects exactly the imports of the code-free text's lines, in order |
| ClaudeMemory.SpanImportsIgnored | src/claude_memory.py:21-32 | an "@path" inside an inline code span is not an import |
| ClaudeMemory.BlockImportsIgnored | src/claude_memory.py:21-32 | an "@path" inside a fenced code block is not an import |
| ClaudeMemory.ResolvePathAbs | src/claude_memory.py:45-51 | an absolute import is kept as is; a relative one under an absolute base, or a "~" one under an absolute home, resolves to an absolute path |
| ClaudeMemory.ReadSpecGood | src/claude_memory.py:54-82 | a read includes each file at most once, only files not seen before and with non-empty content; the text is their contents joined with "\n" |
| ClaudeMemory.ImportsSpecGood | src/claude_memory.py:76-80 | the same holds for a list of imports read one after another, each seeing the files read by the earlier ones |
| ClaudeMemory.VisitTextEmpty | src/claude_memory.py:67-82 | a read yields "" exactly when it includes no file |
| ClaudeMemory.DepthLimit | src/claude_memory.py:4 | beyond depth 5 nothing is read and nothing is marked seen |
| ClaudeMemory.ReadSpecUnfold | src/claude_memory.py:61-82 | a new, non-empty file's text is its content followed by its imports' texts |
| ClaudeMemory.ReadClaudeMd | src/claude_memory.py:54-82 | the recursive reader returns the specified text and seen set |
| ClaudeMemory.ReadImports | src/claude_memory.py:76-80 | the import loop returns the specified texts and seen set |
| ClaudeMemory.Ancestors | src/claude_memory.py:93-101 | the directories visited start at the start directory |
| ClaudeMemory.AncestorsReachRoot | src/claude_memory.py:98-101 | the upward walk ends at a directory that is its own parent, and each step goes to the parent |
| ClaudeMemory.Candidates | src/claude_memory.py:94-96 | only existing files named CLAUDE.md are found |
| ClaudeMemory.NearestFirst | src/claude_memory.py:91-96 | a CLAUDE.md in the start directory comes first |
| ClaudeMemory.UpwardsStep | src/claude_memory.py:93-101 | the upward list is this directory's file, if present, followed by the parent's list |
| ClaudeMemory.FindUpwards | src/claude_memory.py:85-102 | the loop returns the specified upward list |
| ClaudeMemory.Nested | src/claude_memory.py:110-112 | every nested match is a CLAUDE.md path |
| ClaudeMemory.FindNested | src/claude_memory.py:105-113 | the walk loop returns the specified nested list |
| ClaudeMemory.Dedup | src/claude_memory.py:118-121 | no duplicates and the same members |
| ClaudeMemory.AllFiles | src/claude_memory.py:116-121 | every file found upwards or nested appears once, and nothing else |
| ClaudeMemory.FindAll | src/claude_memory.py:116-121 | the method returns that list |
| ClaudeMemory.Memories | src/claude_memory.py:127-129 | one memory per file |
| ClaudeMemory.LoadAllClaudeMemory | src/claude_memory.py:124-130 | the memories of all files, each read from depth 0 with nothing seen, joined with blank lines |
| ClaudeMemory.ReadEach | src/claude_memory.py:127-129 | the loop reads every file in order |
| PosixPath.PathJoin | src/claude_memory.py:51 | an absolute second part replaces the first; joining to an absolute base stays absolute; the result ends with the second part |
| PosixPath.NormPath | src/claude_memory.py:51 | a normalised path is never empty |
| PosixPath.NormPathAbs | src/claude_memory.py:51 | normalising keeps a path absolute or relative |
| PosixPath.NormCompsNormalised | src/claude_memory.py:51 | normalised components contain no ".", no "" and no ".." after a name, and come from the input |
| PosixPath.DirName | src/claude_memory.py:98 | the parent is a prefix of the path |
| PosixPath.DirNameFixedPoint | src/claude_memory.py:98-100 | a path is its own parent exactly when it is all slashes (the root, or "") |
| PosixPath.DirNameShrinks | src/claude_memory.py:98-101 | otherwise the parent is strictly shorter, so the upward walk ends |
| PosixPath.AbsPath | src/claude_memory.py:61 | an absolute path is never empty |
| PosixPath.AbsPathIsAbs | src/claude_memory.py:61 | with an absolute working directory the result is absolute |
| PosixPath.ExpandUser | src/claude_memory.py:47 | a path not starting with "~" is unchanged |
| PosixPath.ExpandUserHome | src/claude_memory.py:47 | "~" and "~/rest" become the home directory (trailing slashes dropped) followed by the rest |
| PosixPath.ExpandUserHomeAbs | src/claude_memory.py:47 | with an absolute home, "~" paths expand to absolute paths |
| Commands.SplitCommand | src/commands.py:30-38 | there is a result exactly when the stripped text starts with "/", and the command part starts with "/" |
| Commands.SplitCommandParts | src/commands.py:40-43 | the command is the first whitespace-free word, and the rest is what follows it with leading whitespace removed |
| Commands.SplitCommandOfParts | src/commands.py:30-43 | "/cmd rest" with a stripped, non-empty rest splits back into ("/cmd", rest) |
| Commands.SplitCommandAlone | src/commands.py:40-43 | a lone "/cmd" splits into ("/cmd", "") |
| Commands.HelpLinesShape | src/commands.py:16-21 | the help has a header, then two lines per command: indented usage, then more deeply indented help |
| Commands.FormatHelp | src/commands.py:16-21 | the loop builds the help lines of the commands sorted by name, joined with "\n" and newline-terminated |
| Commands.FormatHelpLines | src/commands.py:16-21 | for one-line usages and helps, the help's lines are exactly the header and the lines of each command in name order |
| Lists.FilterPrefix | src/commands.py:24-27 | exactly the candidates that start with the prefix, in order; all candidates for "" (`filter_completions` in src/models.py completes model names the same way) |
| Lists.FilterPrefixOrder | src/commands.py:27 | the filter works element by element and keeps order |
| Sorting.SortBy | src/commands.py:18 | the sort is a permutation and ordered by the key |
| Sorting.SortByStable | src/commands.py:18 | the sort is stable: the elements sharing any one key keep their input order |
| Sorting.InsertByStable | src/commands.py:18 | inserting into a sorted list places an element after every element with the same key |
| Sorting.InsertFrontStable | src/commands.py:18 | an element placed in front precedes no element with its key |
| Sorting.InsertLaterStable | src/commands.py:18 | stepping past the first element keeps the order of the equal-key elements |
| Sorting.AllKeysAbove | src/commands.py:18 | a sorted list starting above a key holds no element with that key |
| Sorting.FilterFront | src/commands.py:18 | filtering a list with one element in front filters that element, then the rest |
| Sorting.FilterOne | src/commands.py:18 | a single element is kept exactly when it passes the filter |
| Sorting.SortedUnique | src/util.py:16 | two sorted permutations of a list with distinct keys are equal |
| Sorting.PermutationDistinctKeys | src/util.py:16 | distinct keys stay distinct under permutation |
| Sorting.SortedSet | src/models.py:52 | strictly increasing, with the same members as the input |
| ProviderRegistry.ParseModelId | src/provider_registry.py:16-32 | with a ":" the id splits at the first one into a ":"-free provider and the rest; without one, the default provider is used |
| ProviderRegistry.IdIsFormat | src/provider_registry.py:11-13 | the id property is `format_model_id` of its parts |
| ProviderRegistry.ParseThenId | src/provider_registry.py:16-36 | parsing then printing gives the input back, with the default provider added when there was none |
| ProviderRegistry.FormatThenParse | src/provider_registry.py:16-36 | formatting then parsing gives the parts back when the provider has no ":" |
| ModelRegistry.KeptExact | src/model_registry.py:39-47 | a model is kept exactly when its id is an input id that passes the tests |
| ModelRegistry.ListOpenaiChatModels | src/model_registry.py:11-51 | the loop keeps the ids the tests pass, then sorts them by id |
| ModelRegistry.ChatModelsSpec | src/model_registry.py:21-50 | the chat models are sorted; each avoids every denied prefix and substring and starts with "gpt-" or "o"; every such input id is offered |
| ModelRegistry.DroppedByPrefix | src/model_registry.py:21-29 | an id with a denied prefix is not kept |
| ModelRegistry.DroppedExamples | src/model_registry.py:21-47 | whisper, image, moderation, embedding and unknown-family ids are dropped |
| Models.OpenaiEntries | src/models.py:31-32 | one entry per chat model |
| Models.AddOpenai | src/models.py:31-32 | the loop appends "openai:" + id for each chat model in order |
| Models.AddOllama | src/models.py:44-47 | the loop appends "ollama:" + name for each named model in order |
| Models.GetAvailableModels | src/models.py:7-52 | the result is the sorted set of what the two listings contribute |
| Models.OpenaiEntriesExact | src/models.py:31-32 | every OpenAI entry is "openai:" + a chat model id, and every chat model has its entry |
| Models.OllamaEntriesExact | src/models.py:44-47 | every Ollama entry is "ollama:" + a non-empty name, and every such name has its entry |
| Models.CollectedExact | src/models.py:19-49 | the collection holds exactly the entries of the successful listings |
| Models.AvailableModelsSpec | src/models.py:7-52 | the models offered are strictly increasing, each is a valid entry, and every chat model and named Ollama model of a successful listing is offered |
| NormalizeMessages.BlockText | src/normalize_messages.py:35-40 | a block contributes at most one text, and never an empty one |
| NormalizeMessages.TextPartsExact | src/normalize_messages.py:35-40 | the text parts are exactly the non-empty texts of the "text" blocks |
| NormalizeMessages.TextPartsConcat | src/normalize_messages.py:35-40 | parts are collected block by block, so other blocks drop out wherever they stand |
| NormalizeMessages.NormalizeOneSpec | src/normalize_messages.py:33-53 | only an AI message with list content changes; it keeps its tool calls and metadata, and its content becomes the "\n"-join of its text parts |
| NormalizeMessages.Normalize | src/normalize_messages.py:8-55 | one message out per message in |
| NormalizeMessages.NormalizeIdempotent | src/normalize_messages.py:8-55 | normalising twice is normalising once |
| NormalizeMessages.CollectTextParts | src/normalize_messages.py:35-40 | the inner loop collects the specified text parts |
| NormalizeMessages.NormalizeForTokenCount | src/normalize_messages.py:8-55 | the loop normalises every message in order |
| Util.CallKey | src/util.py:13-16 | the key is the positional arguments followed by one (name, value) tuple per keyword argument, in name order |
| Util.KeyOrderIndependent | src/util.py:13-16 | the order in which keyword arguments are written does not change the key |
| Util.PositionalPairCollides | src/util.py:13-16 | a positional (name, value) tuple and the keyword argument name=value give the same key |
| Util.DuplicateRefuser.constructor | src/util.py:7-8 | a fresh decorator has an empty cache |
| Util.DuplicateRefuser.Call | src/util.py:11-22 | a call whose key is cached returns "" without calling the function; otherwise the key is cached and the function's result returned |
| Util.StripPiece | src/util.py:34 | a stripped, non-empty piece of a line is a phrase |
| Util.StrippedPhrasesArePhrases | src/util.py:34-35 | the kept pieces are phrases |
| Util.LinePhrasesArePhrases | src/util.py:33-35 | the phrases of a line are non-empty, stripped, single-line and free of double spaces |
| Util.ChunksArePhrases | src/util.py:33-35 | the same holds for all the text's lines |
| Util.ChunksOfPhrases | src/util.py:33-35 | lines that are already phrases come out unchanged |
| Util.TidyLines | src/util.py:33-35 | the lines of the cleaned text are the phrases of the input's lines in order; without phrases the result is "" |
| Util.TidyIdempotent | src/util.py:33-35 | cleaning twice is cleaning once |
| Util.TidyPhrase | src/util.py:33-35 | a single phrase cleans to itself |
| Tools.LogLine | src/tools.py:19-32 | the line starts with the bracketed caller name ("<unknown>" without a caller) and has nothing after it exactly when there are no arguments |
| Tools.LogLineFirst | src/tools.py:31-32 | the first argument adds ", key: [value]" |
| Tools.LogLineAppend | src/tools.py:31 | each further argument adds ", key: [value]" at the end |
| Tools.FetchReply | src/tools.py:12-61 | an HTTP error names the URL and the error; a page that fits follows a "[URL]" header; a longer page keeps exactly its first 1000000 characters and ends with the truncation notice |
| Tools.FetchReplyBounded | src/tools.py:12-57 | a page reply is at most the limit plus the notice plus the URL long, and contains all of the cleaned text when it fits |
| Tools.WithContent | src/tools.py:317 | only the content changes, to the new string; the message kind is kept |
| Tools.Position | src/tools.py:315-317 | a valid Python index denotes a position from the front, or from the back when negative |
| Tools.TrimDeletes | src/tools.py:314-315 | deleting removes exactly that message; the others keep their order |
| Tools.TrimRewrites | src/tools.py:316-317 | rewriting changes only that message's content |
| Tools.TrimOutOfRange | src/tools.py:321-323 | an index out of range changes nothing and the reply reports the failure |
| Tools.TrimSucceeds | src/tools.py:319-320 | a successful trim reports the index as given |
| Tools.TrimNegativeIndex | src/tools.py:314-317 | a negative index trims the same message as its positive counterpart |
| Tools.TrimTool.constructor | src/tools.py:299-300 | the tool edits the conversation it was built for |
| Tools.TrimTool.TrimMessage | src/tools.py:300-323 | the conversation becomes `Trimmed(old, index, new_content)` and the reply is the success or the IndexError message |

## Left out

- Rendering: the rich panels, colours and markup. The layout is modelled as a list of panel descriptions, and `rich.markup.escape` is a function parameter.
- The cost and token accounting of the status view (`update_cost`), which uses floating point.
- Threading: the autosaver's worker thread, its locking and the join timeout. The worker is modelled one pass at a time, and each method is atomic.
- JSON and langchain serialisation of messages. A session file holds the message list itself.
- Directory creation (`mkdir`) and file permissions. Whether writing or renaming onto a path raises is given by the store's set of failing paths; a save stops at the first step that raises.
- `new_session_id`: it reads the clock.
- `_agent_state_dir` joins with `os.path.join` semantics (`AgentStateDir`). The other session-store paths are plain string concatenation with "/", not `pathlib` joins.
- SessionStore.SessionPath: the path is the concatenation `sessions/` + id + `.json`. `pathlib` normalises instead: an id with "/" starts a subdirectory, "//" and "./" collapse, and an absolute id replaces the base. So `SessionPathInjective` holds for the concatenation; for `pathlib` it holds only of ids without "/".
- `find_all` builds its result from a Python set, whose order is unspecified. `AllFiles` fixes one order, and its contract states only that there are no duplicates and that the members are right.
- `os.walk`, the OpenAI and Ollama listings and `agent.stream` are not run. They are inputs: the walk's entries, the listed ids, the stream's chunks.
- An exception raised by a listing or by the stream in the middle of a loop is not modelled.
- The regular expressions of `claude_memory` are modelled as character scans with the same matches.
- `str.isprintable` is modelled by a character predicate. The predicate lists the control, separator and format ranges; Python's definition covers every non-printable Unicode category.
- The repository's newline test (tests/test_agent_runner_newlines.py:7) expects blank lines to be kept in a preview. The code drops them, and the model follows the code.
- `NormalizeMessages.NormalizeOneSpec`: the rebuilt AI message keeps only its tool calls and metadata, as the code does. Other attributes of the original are not modelled.
- The `run` and `complete_args` callbacks of a command spec are left out, because they are calls into the application.
- `refuse_if_duplicate` prints a rejection line. Printing is left out.
- `Util.DuplicateRefuser.Call`: the wrapped function is a pure parameter, so any side effects of the tool are left out.
- BeautifulSoup's HTML-to-text extraction in `extract_text` is left out. The extracted text is the input of the clean-up.
- `requests.get` and `raise_for_status` are left out. The download is an input, an HTTP error status or the page.
- An exception from `requests.get` itself is raised outside the `try`, so it propagates to the caller. It is not modelled.
- The repository's fetch test (tests/test_fetch.py) expects the URL to be fetched through a reader-proxy prefix. The code does not add one, and the model follows the code.
- `log_tool`: the caller's name comes from the interpreter's stack, so it is a parameter. The printing and the returned printer `p` are left out.
- `trim_message` logs its result. The logging is left out.
- `Tools.TrimTool.TrimMessage`: a rewritten message is replaced by a new value in the list. If the message object was also referenced elsewhere, that other reference would see the change in Python but not in the model.
- Tool-call arguments are given already rendered: each is a (name, `str(value)`) pair of strings, so the rendering of argument values is left out.
- `Util.CallKey`: keyword arguments are sorted by name only. Python compares the (name, value) tuples, but the names of a call's keyword arguments are distinct, so the order is the same.
- `Util.KeyOrderIndependent` requires distinct keyword names, as a Python call's keyword arguments always have.
- Hashing of unhashable arguments (a list passed to a decorated tool raises `TypeError` in Python) is not modelled. Every value is a key in the model.
