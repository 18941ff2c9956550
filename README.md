# auto-refactor: the agent conversation and its tool state, in Dafny

auto-refactor lets a language model refactor a code repository one file at a time. Two
programs cooperate:

- the **server's `RefactoringAgent`** keeps one conversation per repository with the
  model (the *brain*);
- the **client's `AgentToolController`** is the *tool*. It serves the repository's files and
  applies the refactoring plans the brain sends back.

Each brain reply is queued with its context: the repository, and the hash of the file in
flight, if there is one. The agent reacts to the reply at the head of the queue in one of
three ways:

- `"finish"`: it forgets the conversation and tells the tool the session is over;
- `"nextFile"`: it fetches a file, shows it to the brain with line numbers and remembers
  the file's SHA-256;
- anything else is an action plan. The agent parses it, sends it to the tool tagged with
  that hash, and asks the brain again.

On the client, the hash picks out the file that was served with that content.

The project models:

| module | file | what |
|---|---|---|
| `Wrappers` | `wrappers.dfy` | `Option`, and map lookup as an `Option` (Java's `get` returning null) |
| `ActionItems` | `action_items.dfy` | the sealed `ActionItem` union, `ActionItemType`, `ActionPlan`, and their JSON wire form over a JSON tree, with round trips |
| `LineNumbers` | `line_numbers.dfy` | `appendLineNumbers`, with `String.split("\\R")` written out, and what numbering does to the lines |
| `MessagesStore` | `messages_store.dfy` | `InMemoryMessagesStore` as a class: the per-repository append-only logs and the FIFO of pending replies |
| `ToolsInfo` | `tools_info_store.dfy` | `InMemoryToolsInfoStore` as a class over a map |
| `AgentSpec` | `agent_spec.dfy` | the orchestrator as a state machine over values, with what each kind of reply does, the session invariant it keeps, and the one-file session of the agent's unit test |
| `Agent` | `agent.dfy` | `RefactoringAgent` as a class that updates its stores in place, with each method proved to move the state as `AgentSpec` says |
| `ToolController` | `tool_controller.dfy` | the `/files/next` and `/actions/execute` handlers of `AgentToolController` over `fileQueue` and `filesByHash` |
| `Changes` | `changes_collector.dfy` | `ChangesCollector`'s grow-only set of (file name, action) pairs |

The agent runs every task on one single-threaded executor, so the model is a sequence of
atomic steps. Each step is either "start repository r" (`StartProcess`) or "handle the
reply at the head of the queue" (`Step`).

Code outside the model enters as functions, collected in `Collaborators`:

- the brain (`AgentBrain`): its opening instructions, and a function from the stored
  history to its answer (`None` stands for Java's null history);
- SHA-256, as a function into 64-character lower-case hex strings;
- the JSON reader, as a function from text to a JSON tree.

The command executor is scripted by the file contents it will serve per repository. A
repository that has run out of files serves `""`. The executor also has a set of
repositories whose tool cannot be reached, for which a call throws. A finish forgets the
tool first, so a repeated finish posts nothing and cannot throw. The executor logs every
call the agent makes.

## Model

| member | source | states |
|---|---|---|
| ActionItems.GetType | auto-refactor-shared/src/main/java/org/varamadon/autorefactor/shared/model/ActionItem.java:12-14 | each record's `getType` is its own constant, both ways: `ADD_COMMENT` exactly for `AddCommentAction`, and so on |
| ActionItems.TagsIdentifyVariant | auto-refactor-shared/src/main/java/org/varamadon/autorefactor/shared/model/ActionItem.java:6-11 | two items carry the same `"type"` tag exactly when they are the same variant, so decoding by tag is unambiguous |
| ActionItems.WireNameIsTag | auto-refactor-shared/src/main/java/org/varamadon/autorefactor/shared/model/ActionItemType.java:6-11 | the wire name of an item's `ActionItemType` is the union's tag for that item |
| ActionItems.DecodeItem | auto-refactor-shared/src/main/java/org/varamadon/autorefactor/shared/model/ActionItem.java:6-11 | under the model's strict reader (no scalar conversions), a tree that reads as an item is an object whose `"type"` property is that item's tag |
| ActionItems.DecodeEncodeItem | auto-refactor-shared/src/test/java/org/varamadon/autorefactor/shared/model/SerializationTest.java:25-33 | serialising any item and reading it back gives the same item |
| ActionItems.EncodeDecodeItem | auto-refactor-shared/src/main/java/org/varamadon/autorefactor/shared/model/ActionItem.java:6-11 | under the model's strict reader, a tree that reads as an item is exactly the serialisation of that item, so the wire form is canonical |
| ActionItems.EncodeItems | auto-refactor-shared/src/test/java/org/varamadon/autorefactor/shared/model/SerializationTest.java:19-21 | a list serialises to an array of the same length, element by element |
| ActionItems.DecodeElems | auto-refactor-server/src/main/java/org/varamadon/autorefactor/server/agent/RefactoringAgent.java:182-183 | an array that reads as items has one item per element, each the reading of its element; the array is malformed exactly when some element is a non-null value that does not read as an item, and otherwise reads as a null list exactly when some element is null |
| ActionItems.DecodeItems | auto-refactor-server/src/main/java/org/varamadon/autorefactor/server/agent/RefactoringAgent.java:182-183 | `readValue` into a list of items then the immutable copy: the text reads as items exactly when it is an array whose every element reads as an item, and then gives one item per element; it gives a null list exactly for JSON `null` or an array with a null element and no unreadable one; anything else is malformed |
| ActionItems.DecodeEncodeElems | auto-refactor-server/src/main/java/org/varamadon/autorefactor/server/agent/RefactoringAgent.java:182-183 | the elements of a serialised list read back as the same list |
| ActionItems.DecodeEncodeItems | auto-refactor-server/src/main/java/org/varamadon/autorefactor/server/agent/RefactoringAgent.java:182-183 | a serialised list of items reads back as the same list |
| ActionItems.DecodePlan | auto-refactor-shared/src/test/java/org/varamadon/autorefactor/shared/model/SerializationTest.java:21-22 | a tree that reads as a plan carries that plan's hash in its `"fileHash"` property |
| ActionItems.DecodeEncodePlan | auto-refactor-shared/src/test/java/org/varamadon/autorefactor/shared/model/SerializationTest.java:12-23 | serialising a plan (hash and items) and reading it back gives an equal plan |
| LineNumbers.Pieces | auto-refactor-server/src/main/java/org/varamadon/autorefactor/server/agent/RefactoringAgent.java:215 | splitting at `\R` always yields at least one piece |
| LineNumbers.PiecesAndBreaksRebuild | auto-refactor-server/src/main/java/org/varamadon/autorefactor/server/agent/RefactoringAgent.java:215 | the split loses only the separators: one match of `\R` sits between each two pieces, each match is "\r\n" or a single break character, and putting the matches back between the pieces gives the text again |
| LineNumbers.LoneReturnIsNotBeforeFeed | auto-refactor-server/src/main/java/org/varamadon/autorefactor/server/agent/RefactoringAgent.java:215 | "\r\n" is matched whole: a carriage return matched alone is never followed directly by a line feed |
| LineNumbers.LeadingBreak | auto-refactor-server/src/main/java/org/varamadon/autorefactor/server/agent/RefactoringAgent.java:215 | a text whose first piece is empty opens with its first separator |
| LineNumbers.DropTrailingEmpty | auto-refactor-server/src/main/java/org/varamadon/autorefactor/server/agent/RefactoringAgent.java:215 | the result is a prefix of the pieces that does not end in an empty piece, and only empty pieces were dropped |
| LineNumbers.SplitLines | auto-refactor-server/src/main/java/org/varamadon/autorefactor/server/agent/RefactoringAgent.java:215 | `split("\\R")`: the empty text gives one empty line; a text with a break gives a prefix of the pieces that does not end in an empty line, having dropped only trailing empty pieces |
| LineNumbers.NatToString | auto-refactor-server/src/main/java/org/varamadon/autorefactor/server/agent/RefactoringAgent.java:218 | the decimal text of a number is never empty |
| LineNumbers.AppendLineNumbers | auto-refactor-server/src/main/java/org/varamadon/autorefactor/server/agent/RefactoringAgent.java:211-221 | the loop builds `NumberedText`: `""` for null or empty input, otherwise, for each split line, its number from 1, the bar separator, the line and a line separator |
| LineNumbers.NumberedFromSnoc | auto-refactor-server/src/main/java/org/varamadon/autorefactor/server/agent/RefactoringAgent.java:216-219 | numbering one more line appends exactly that line's numbered text and a separator |
| LineNumbers.PiecesAreBreakFree | auto-refactor-server/src/main/java/org/varamadon/autorefactor/server/agent/RefactoringAgent.java:215 | no piece contains a line break |
| LineNumbers.SplitLinesAreBreakFree | auto-refactor-server/src/main/java/org/varamadon/autorefactor/server/agent/RefactoringAgent.java:215 | no split line contains a line break |
| LineNumbers.OnlyBreaksGivesNoLines | auto-refactor-server/src/main/java/org/varamadon/autorefactor/server/agent/RefactoringAgent.java:212-215 | a non-empty text made only of breaks (such as `"\n"`) splits into no lines and is numbered as `""` |
| LineNumbers.AllEmptyPieces | auto-refactor-server/src/main/java/org/varamadon/autorefactor/server/agent/RefactoringAgent.java:215 | a text of breaks only splits into empty pieces |
| LineNumbers.AllEmptyDrops | auto-refactor-server/src/main/java/org/varamadon/autorefactor/server/agent/RefactoringAgent.java:215 | trailing-empty removal drops a list of empty pieces entirely |
| LineNumbers.PiecesOfBreakFreePrefix | auto-refactor-server/src/main/java/org/varamadon/autorefactor/server/agent/RefactoringAgent.java:215 | a break-free prefix joins the first piece of what follows it |
| LineNumbers.PiecesAfterSeparator | auto-refactor-server/src/main/java/org/varamadon/autorefactor/server/agent/RefactoringAgent.java:215 | a text that starts with a line separator splits into an empty piece followed by the pieces of the rest |
| LineNumbers.PiecesOfLineThenSeparator | auto-refactor-server/src/main/java/org/varamadon/autorefactor/server/agent/RefactoringAgent.java:215 | a break-free line, then a separator, then a rest splits into that line followed by the pieces of the rest |
| LineNumbers.JoinCons | auto-refactor-server/src/main/java/org/varamadon/autorefactor/server/agent/RefactoringAgent.java:218 | joining two or more lines is the first line, a separator, and the join of the rest |
| LineNumbers.PiecesOfJoin | auto-refactor-server/src/main/java/org/varamadon/autorefactor/server/agent/RefactoringAgent.java:215 | splitting joined break-free lines followed by a tail gives those lines, with the last glued to the tail's first piece |
| LineNumbers.GlueEmptyHead | auto-refactor-server/src/main/java/org/varamadon/autorefactor/server/agent/RefactoringAgent.java:215 | gluing onto a tail whose first piece is empty leaves the lines as they are |
| LineNumbers.SplitJoinRoundTrip | auto-refactor-server/src/main/java/org/varamadon/autorefactor/server/agent/RefactoringAgent.java:215 | splitting break-free lines joined by a separator gives the lines back, unless the last of several is empty |
| LineNumbers.JoinHasBreak | auto-refactor-server/src/main/java/org/varamadon/autorefactor/server/agent/RefactoringAgent.java:215 | two or more joined lines contain a break |
| LineNumbers.NatToStringIsDigits | auto-refactor-server/src/main/java/org/varamadon/autorefactor/server/agent/RefactoringAgent.java:218 | a line number's text consists of decimal digits |
| LineNumbers.DigitValue | auto-refactor-server/src/main/java/org/varamadon/autorefactor/server/agent/RefactoringAgent.java:218 | each digit character stands for its value |
| LineNumbers.NatToStringRoundTrip | auto-refactor-server/src/main/java/org/varamadon/autorefactor/server/agent/RefactoringAgent.java:218 | the printed line number reads back as the same number |
| LineNumbers.NumberedLines | auto-refactor-server/src/main/java/org/varamadon/autorefactor/server/agent/RefactoringAgent.java:217-219 | numbering keeps one entry per line |
| LineNumbers.NumberedLinesAt | auto-refactor-server/src/main/java/org/varamadon/autorefactor/server/agent/RefactoringAgent.java:217-219 | entry i is line i numbered `first + i` |
| LineNumbers.NumberedFromIsJoin | auto-refactor-server/src/main/java/org/varamadon/autorefactor/server/agent/RefactoringAgent.java:216-219 | the numbered text is the numbered lines joined by the separator, with a separator after the last line as well |
| LineNumbers.NumberedLineIsBreakFree | auto-refactor-server/src/main/java/org/varamadon/autorefactor/server/agent/RefactoringAgent.java:218 | numbering a break-free line gives a non-empty break-free line |
| LineNumbers.PiecesOfTerminatedLines | auto-refactor-server/src/main/java/org/varamadon/autorefactor/server/agent/RefactoringAgent.java:216-219 | splitting separator-terminated lines gives the lines plus one trailing empty piece |
| LineNumbers.DropOneTrailingEmpty | auto-refactor-server/src/main/java/org/varamadon/autorefactor/server/agent/RefactoringAgent.java:215 | one trailing empty piece after a non-empty last line is dropped, and nothing else |
| LineNumbers.SplitTerminatedLines | auto-refactor-server/src/main/java/org/varamadon/autorefactor/server/agent/RefactoringAgent.java:215-219 | separator-terminated break-free lines whose last line is non-empty split back into exactly those lines |
| LineNumbers.NumberingKeepsLines | auto-refactor-server/src/main/java/org/varamadon/autorefactor/server/agent/RefactoringAgent.java:211-221 | splitting the numbered text gives one line per original line, line i being original line i with its number (from 1) and the bar separator in front |
| MessagesStore.CopyMessagesWith | auto-refactor-server/src/main/java/org/varamadon/autorefactor/server/agent/memory/impl/InMemoryMessagesStore.java:57-61 | the copy is the old list (or nothing, for null) followed by the new message |
| MessagesStore.StoreInLog | auto-refactor-server/src/main/java/org/varamadon/autorefactor/server/agent/memory/impl/InMemoryMessagesStore.java:27-29 | the message is appended to that repository's list, created if absent; every other list is untouched |
| MessagesStore.DeleteFromLog | auto-refactor-server/src/main/java/org/varamadon/autorefactor/server/agent/memory/impl/InMemoryMessagesStore.java:37-39 | only that repository's entry goes; every other list is untouched |
| MessagesStore.DeleteIdempotent | auto-refactor-server/src/main/java/org/varamadon/autorefactor/server/agent/memory/impl/InMemoryMessagesStore.java:37-39 | a second delete changes nothing |
| MessagesStore.StoreStartsList | auto-refactor-server/src/main/java/org/varamadon/autorefactor/server/agent/memory/impl/InMemoryMessagesStore.java:59 | storing for a repository with no list creates a one-element list |
| MessagesStore.InMemoryMessagesStore.constructor | auto-refactor-server/src/main/java/org/varamadon/autorefactor/server/agent/memory/impl/InMemoryMessagesStore.java:21-24 | a new store has no logs and an empty queue |
| MessagesStore.InMemoryMessagesStore.StoreMessage | auto-refactor-server/src/main/java/org/varamadon/autorefactor/server/agent/memory/impl/InMemoryMessagesStore.java:27-29 | the logs become `StoreInLog` of the old logs; the queue is unchanged |
| MessagesStore.InMemoryMessagesStore.GetMessages | auto-refactor-server/src/main/java/org/varamadon/autorefactor/server/agent/memory/impl/InMemoryMessagesStore.java:32-34 | exactly the stored list, or `None` (null) exactly when the repository has none |
| MessagesStore.InMemoryMessagesStore.DeleteMessages | auto-refactor-server/src/main/java/org/varamadon/autorefactor/server/agent/memory/impl/InMemoryMessagesStore.java:37-39 | the logs become `DeleteFromLog` of the old logs; the queue is unchanged |
| MessagesStore.InMemoryMessagesStore.StorePendingMessageWithContext | auto-refactor-server/src/main/java/org/varamadon/autorefactor/server/agent/memory/impl/InMemoryMessagesStore.java:42-44 | the item is appended at the tail of the queue; the logs are unchanged |
| MessagesStore.InMemoryMessagesStore.AwaitNextPendingMessageWithContext | auto-refactor-server/src/main/java/org/varamadon/autorefactor/server/agent/memory/impl/InMemoryMessagesStore.java:47-50 | on a non-empty queue, removes and returns the head; the logs are unchanged |
| MessagesStore.QueueIsFifo | auto-refactor-server/src/main/java/org/varamadon/autorefactor/server/agent/memory/impl/InMemoryMessagesStore.java:42-50 | under any interleaving of puts and takes, the items taken followed by those left are the initial queue followed by the items put, in order |
| ToolsInfo.InMemoryToolsInfoStore.constructor | auto-refactor-server/src/main/java/org/varamadon/autorefactor/server/agent/command/impl/InMemoryToolsInfoStore.java:15 | a new store knows no URL |
| ToolsInfo.InMemoryToolsInfoStore.RegisterToolUrl | auto-refactor-server/src/main/java/org/varamadon/autorefactor/server/agent/command/impl/InMemoryToolsInfoStore.java:18-20 | afterwards the repository maps to the new URL, replacing any earlier one, and every other repository's lookup is as before |
| ToolsInfo.InMemoryToolsInfoStore.GetToolUrl | auto-refactor-server/src/main/java/org/varamadon/autorefactor/server/agent/command/impl/InMemoryToolsInfoStore.java:23-26 | the stored URL, or empty exactly when none is registered |
| ToolsInfo.InMemoryToolsInfoStore.RemoveToolUrl | auto-refactor-server/src/main/java/org/varamadon/autorefactor/server/agent/command/impl/InMemoryToolsInfoStore.java:29-31 | afterwards the lookup is empty, other repositories are unaffected, and removing an absent entry changes nothing |
| AgentSpec.DigestIsNotBlank | auto-refactor-server/src/main/java/org/varamadon/autorefactor/server/agent/RefactoringAgent.java:155 | a SHA-256 hex digest is never blank, so a fetched file, even an empty one, always gives a usable hash |
| AgentSpec.StartStoresSystemMessageFirst | auto-refactor-server/src/main/java/org/varamadon/autorefactor/server/agent/RefactoringAgent.java:81-88 | starting appends the opening instructions and then the brain's answer to a history that ends with them, and queues that answer with an empty hash; the executor is not called |
| AgentSpec.CallBrainQueuesOneReply | auto-refactor-server/src/main/java/org/varamadon/autorefactor/server/agent/RefactoringAgent.java:166-172 | the brain sees the full stored history, its answer is appended to it, and exactly one (answer, repository, hash) item joins the tail of the queue |
| AgentSpec.FinishReplyEndsSession | auto-refactor-server/src/main/java/org/varamadon/autorefactor/server/agent/RefactoringAgent.java:134-137 | a `"finish"` reply deletes the history and sends finish, with no brain call and nothing queued; when the tool cannot be reached the finish throws and the dispatcher finishes again, so two finish calls are logged |
| AgentSpec.RepeatedFinishCannotFail | auto-refactor-server/src/main/java/org/varamadon/autorefactor/server/agent/command/impl/CommandExecutorImpl.java:42-47 | a finish call fails exactly when the tool cannot be reached, and a second finish for the same repository cannot fail, because the first forgot the tool |
| AgentSpec.FetchedFileGoesToBrain | auto-refactor-server/src/main/java/org/varamadon/autorefactor/server/agent/RefactoringAgent.java:152-158 | a reachable tool serves a file; the agent stores its numbered text and calls the brain with the hash of the raw content |
| AgentSpec.UserNextFileMessage | auto-refactor-server/src/main/java/org/varamadon/autorefactor/server/agent/RefactoringAgent.java:190-192 | a USER message; its text is empty for empty content or for content with no lines |
| AgentSpec.UserNextFileMessageNumbersLines | auto-refactor-server/src/main/java/org/varamadon/autorefactor/server/agent/RefactoringAgent.java:190-221 | for content with lines, the message text splits into one line per line of the content, the i-th being its number i, the bar separator and that line |
| AgentSpec.NextFileReplyFetchesFile | auto-refactor-server/src/main/java/org/varamadon/autorefactor/server/agent/RefactoringAgent.java:138-139 | a `"nextFile"` reply makes exactly one next-file call on the executor |
| AgentSpec.NextFileReplyCallsBrain | auto-refactor-server/src/main/java/org/varamadon/autorefactor/server/agent/RefactoringAgent.java:152-158 | a `"nextFile"` reply stores the numbered file and then calls the brain with the raw content's hash |
| AgentSpec.NextFileReplySendsFile | auto-refactor-server/src/main/java/org/varamadon/autorefactor/server/agent/RefactoringAgent.java:152-158 | after a `"nextFile"` reply, the history ends with the numbered file and the brain's answer to it, and that answer is queued with the hash of the raw content |
| AgentSpec.UnreachableToolEndsSession | auto-refactor-server/src/main/java/org/varamadon/autorefactor/server/agent/RefactoringAgent.java:115-118 | when the next-file call throws, the session is finished: the history is deleted and finish is sent, with nothing queued |
| AgentSpec.PlanWithoutFileEndsSession | auto-refactor-server/src/main/java/org/varamadon/autorefactor/server/agent/RefactoringAgent.java:141-145 | a plan reply with a blank hash throws, and the dispatcher finishes the session without sending any plan |
| AgentSpec.PlanReplySendsPlan | auto-refactor-server/src/main/java/org/varamadon/autorefactor/server/agent/RefactoringAgent.java:146-148 | a plan reply with a non-blank hash sends the parsed items under that hash, then queues the brain's next answer with an empty hash |
| AgentSpec.MalformedPlanBecomesEmpty | auto-refactor-server/src/main/java/org/varamadon/autorefactor/server/agent/RefactoringAgent.java:184-187 | a reply that does not read as a list of items becomes the empty plan |
| AgentSpec.DeserializeActionPlan | auto-refactor-server/src/main/java/org/varamadon/autorefactor/server/agent/RefactoringAgent.java:180-188 | text the reader cannot read, or reads as a malformed list, gives the empty plan; a list of readable items gives those items; a null list or a null item gives no plan at all (the copy throws), and only then |
| AgentSpec.SerializedItemsAreRead | auto-refactor-server/src/main/java/org/varamadon/autorefactor/server/agent/RefactoringAgent.java:182-183 | a reply that reads as a serialised list of items yields those items |
| AgentSpec.NullListThrows | auto-refactor-server/src/main/java/org/varamadon/autorefactor/server/agent/RefactoringAgent.java:183 | a reply of JSON `null` makes the list copy throw |
| AgentSpec.PlanFailureEndsSession | auto-refactor-server/src/main/java/org/varamadon/autorefactor/server/agent/RefactoringAgent.java:115-118 | when parsing or sending a plan throws, the history is deleted and finish is sent, after the plan if one was sent |
| AgentSpec.DispatchKeepsQueueOrder | auto-refactor-server/src/main/java/org/varamadon/autorefactor/server/agent/RefactoringAgent.java:104-120 | handling the head leaves the rest of the queue in order at the front and adds at most one item behind it |
| AgentSpec.StartKeepsSessionsWellFormed | auto-refactor-server/src/main/java/org/varamadon/autorefactor/server/agent/RefactoringAgent.java:81-88 | starting a repository with no live session keeps the session invariant: one queued reply per live repository, matching its history |
| AgentSpec.DispatchKeepsSessionsWellFormed | auto-refactor-server/src/main/java/org/varamadon/autorefactor/server/agent/RefactoringAgent.java:104-120 | handling the head of the queue, whatever the reply and whatever throws, keeps the session invariant |
| AgentSpec.EndHeadSession | auto-refactor-server/src/main/java/org/varamadon/autorefactor/server/agent/RefactoringAgent.java:174-178 | finishing the head's session keeps the invariant for all the other sessions |
| AgentSpec.PlanHashIsOfFileShown | auto-refactor-server/src/main/java/org/varamadon/autorefactor/server/agent/RefactoringAgent.java:141-148 | under the invariant, a queued hash is blank only when it is empty, and a non-empty one is the hash of the file the brain was just shown |
| AgentSpec.OneFileSessionStarts | auto-refactor-server/src/test/java/org/varamadon/autorefactor/server/agent/RefactoringAgentTest.java:61-63 | in the scripted session, starting queues the request for the first file |
| AgentSpec.OneFileSessionFetchesFile | auto-refactor-server/src/test/java/org/varamadon/autorefactor/server/agent/RefactoringAgentTest.java:64-66 | the first turn fetches the file and queues the plan under sha256 of its content |
| AgentSpec.OneFileSessionSendsPlan | auto-refactor-server/src/test/java/org/varamadon/autorefactor/server/agent/RefactoringAgentTest.java:67-69 | the second turn sends the addComment plan under that hash and queues the next request |
| AgentSpec.OneFileSessionFetchesEmptyFile | auto-refactor-server/src/test/java/org/varamadon/autorefactor/server/agent/RefactoringAgentTest.java:70-78 | the third turn fetches the empty file and queues finish |
| AgentSpec.OneFileSessionFinishes | auto-refactor-server/src/test/java/org/varamadon/autorefactor/server/agent/RefactoringAgentTest.java:89-91 | the fourth turn deletes the history and sends finish |
| AgentSpec.OneFileSessionTurn | auto-refactor-server/src/test/java/org/varamadon/autorefactor/server/agent/RefactoringAgentTest.java:60-78 | each of the four turns moves the session to the next state |
| AgentSpec.OneFileSession | auto-refactor-server/src/test/java/org/varamadon/autorefactor/server/agent/RefactoringAgentTest.java:37-92 | after any number of turns, the run has called next-file twice, sent one plan with sha256("fileContent") and the addComment item, and called finish once, in that order, and then rests with an empty queue and no history |
| Agent.CommandExecutor.constructor | auto-refactor-server/src/test/java/org/varamadon/autorefactor/server/agent/RefactoringAgentTest.java:37-39 | a scripted executor starts with its script and no call made |
| Agent.CommandExecutor.ExecuteNextFileCommand | auto-refactor-server/src/main/java/org/varamadon/autorefactor/server/agent/RefactoringAgent.java:154 | logs the call and serves the next scripted content (`""` once exhausted, `None` when unreachable), as `FetchNextFile` says |
| Agent.CommandExecutor.ExecuteActionPlanCommand | auto-refactor-server/src/main/java/org/varamadon/autorefactor/server/agent/RefactoringAgent.java:162 | logs the plan, and fails when the tool is unreachable, as `SendActionPlan` says |
| Agent.CommandExecutor.ExecuteFinishCommand | auto-refactor-server/src/main/java/org/varamadon/autorefactor/server/agent/command/impl/CommandExecutorImpl.java:42-47 | logs the finish call, forgets the tool, and fails when the tool cannot be reached, as `SendFinish` says |
| Agent.RefactoringAgent.constructor | auto-refactor-server/src/main/java/org/varamadon/autorefactor/server/agent/RefactoringAgent.java:63-73 | the agent holds the given collaborators, store and executor |
| Agent.RefactoringAgent.StartProcess | auto-refactor-server/src/main/java/org/varamadon/autorefactor/server/agent/RefactoringAgent.java:81-88 | the stores end as `AgentSpec.StartProcess` of the old state |
| Agent.RefactoringAgent.ProcessNextAssistantMessage | auto-refactor-server/src/main/java/org/varamadon/autorefactor/server/agent/RefactoringAgent.java:104-120 | takes the head, handles it, and finishes the session when handling fails; the stores end as `AgentSpec.ProcessNextAssistantMessage` says |
| Agent.RefactoringAgent.RunDispatcher | auto-refactor-server/src/main/java/org/varamadon/autorefactor/server/agent/RefactoringAgent.java:94-102 | `steps` turns of the listener loop leave the state `Run` says |
| Agent.RefactoringAgent.HandleAssistantMessage | auto-refactor-server/src/main/java/org/varamadon/autorefactor/server/agent/RefactoringAgent.java:130-150 | the new state and whether an exception escaped are those of `AgentSpec.HandleAssistantMessage` |
| Agent.RefactoringAgent.ExecuteNextFileCommand | auto-refactor-server/src/main/java/org/varamadon/autorefactor/server/agent/RefactoringAgent.java:152-158 | the new state and the failure flag are those of `AgentSpec.ExecuteNextFileCommand` |
| Agent.RefactoringAgent.ExecuteActionPlanCommand | auto-refactor-server/src/main/java/org/varamadon/autorefactor/server/agent/RefactoringAgent.java:160-164 | the new state and the failure flag are those of `AgentSpec.ExecuteActionPlanCommand` |
| Agent.RefactoringAgent.CallBrain | auto-refactor-server/src/main/java/org/varamadon/autorefactor/server/agent/RefactoringAgent.java:166-172 | the stores end as `AgentSpec.CallBrain` says |
| Agent.RefactoringAgent.FinishProcess | auto-refactor-server/src/main/java/org/varamadon/autorefactor/server/agent/RefactoringAgent.java:174-178 | the stores end, and the failure flag is, as `AgentSpec.FinishProcess` says: history deleted, finish sent, failed when the finish threw |
| ToolController.CompletedBeforeFailure | auto-refactor-client/src/main/kotlin/org/varamadon/autorefactor/client/refactoring/agent/tool/AgentToolController.kt:82-84 | the items run before the first one whose execution throws: none of them throws, and the one after them does |
| ToolController.AgentToolController.constructor | auto-refactor-client/src/main/kotlin/org/varamadon/autorefactor/client/refactoring/agent/tool/AgentToolController.kt:31-38 | a new controller has the given queue, an empty `filesByHash` and has run nothing; every remembered file is stored under the hash of the content it was served with |
| ToolController.AgentToolController.NextFile | auto-refactor-client/src/main/kotlin/org/varamadon/autorefactor/client/refactoring/agent/tool/AgentToolController.kt:48-60 | an empty queue gives `""` and changes nothing; otherwise the head is removed, its content (`""` without a document) is the response, and the file is remembered under that content's hash together with the content served, overwriting an earlier file with the same content; no entry is ever removed |
| ToolController.GetContent | auto-refactor-client/src/main/kotlin/org/varamadon/autorefactor/client/refactoring/agent/tool/AgentToolController.kt:102-108 | the text of the file's document, or `""` when the file has no document |
| ToolController.AgentToolController.ExecuteActionPlan | auto-refactor-client/src/main/kotlin/org/varamadon/autorefactor/client/refactoring/agent/tool/AgentToolController.kt:73-86 | an unknown hash gives BadRequest `"ABSENT_FILE"` and runs nothing; a known one names a file served with content of that hash, and its items run in plan order on that file until the first that throws; the answer is OK when all ran and 500 otherwise |
| Changes.ChangesCollector.constructor | auto-refactor-client/src/main/kotlin/org/varamadon/autorefactor/client/refactoring/ChangesCollector.kt:9 | the record starts empty |
| Changes.ChangesCollector.RecordActionItem | auto-refactor-client/src/main/kotlin/org/varamadon/autorefactor/client/refactoring/ChangesCollector.kt:14-16 | the pair is added, nothing is lost, and recording a pair already present changes nothing |
| Changes.ChangesCollector.GetRecordedActionsWithFileName | auto-refactor-client/src/main/kotlin/org/varamadon/autorefactor/client/refactoring/ChangesCollector.kt:21-23 | returns a set equal to the record and leaves the record unchanged |

## Left out

- Threads: the two single-thread executors and the listener's endless loop are not modelled. The model runs one atomic task at a time. `RunDispatcher` and `Run` take a bound on the number of turns; a turn with an empty queue changes nothing, where the real listener blocks.
- The brain (`ChatGPTAgentBrain`), the HTTP command executor (`CommandExecutorImpl`) and the HTTP entry point (`AgentController`) are not modelled. The brain and the executor are parameters (see above).
- SHA-256 and Jackson's `readValue` are functions given as parameters. Only the shape of SHA-256's output (64 lower-case hex digits) is used.
- A JSON property that is missing, or is present with a null value, is treated as malformed when an item is read. Jackson would leave the record component null instead.
- ActionItems.DecodeItem: reads strictly. Jackson's default reader also converts scalars: a `line` given as a string of digits (`"5"`) or as a number with a fraction (`5.0`), and a `content` or name given as a number, are read into the record. The model rejects them. It also rejects an object with a property the record does not have, as a plain `ObjectMapper` does; the agent's reader is injected and its configuration is not part of this model, and a reader configured to ignore unknown properties would keep such an item where the model empties the whole plan.
- ActionItems.EncodeDecodeItem: the wire form is canonical only for the model's strict reader. Under Jackson's conversions, other trees read as the same item.
- `System.lineSeparator()` is fixed to `"\n"`.
- ActionPlan.java is not part of this model. Its two components (`fileHash`, `actionItems`) are taken from their uses.
- The client's Ktor server start-up, `receiveText`, the `/finish` handler, `printExecutedActions`, `exitIfHeadless` and the IDE's read action are not modelled.
- A request body that does not read as an `ActionPlan` is not modelled: `ExecuteActionPlan` takes the plan already read.
- Running an item on a file (`RefactoringExecutor.execute`, PSI edits, rename processors) is recorded as an `Execution` entry. Whether it throws is a fixed function of the file and the item (`throws`).
- ToolController.AgentToolController.ExecuteActionPlan: the document edits that executions make in place are not modelled. A file stays the value it was served as, and a later plan for the same hash runs on it as if unedited, though in the IDE its text, and so its hash, have changed. An item that throws after part of its edit is not modelled either: it appears in no `Execution`.
- Recording into `ChangesCollector`, which happens inside the executor, is modelled by the collector's own methods only.
- Logging is not modelled.
- AgentSpec.NextFileReplySendsFile: does not repeat that the queued hash is non-blank. `DigestIsNotBlank` states that for every hash.
- The session invariant is proved one step at a time (`StartKeepsSessionsWellFormed`, `DispatchKeepsSessionsWellFormed`), not for whole runs.
- AgentSpec.StartKeepsSessionsWellFormed: covers a start for a repository with no live session only. A second start for a live repository is accepted by the source: it appends a second system message to the live history and queues a second reply, so two replies for one repository are in the queue and the session invariant no longer holds.
- The script does not model that a finished repository's tool address is gone: a later next-file or plan call for it would throw in the source. Under the session invariant no reply for a finished repository stays queued.
