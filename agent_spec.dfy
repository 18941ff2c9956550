/**
 * The conversation orchestrator (`RefactoringAgent`) as a state machine over values.
 *
 * Every task the agent runs goes through one single-threaded executor, so the whole
 * system moves in atomic steps: either "start repository r" or "take the reply at the
 * head of the pending queue and handle it". The state is the message log, the pending
 * queue and what the command executor has been asked to do. The brain, the hash function
 * and the JSON reader are foreign code and enter as functions (`Collaborators`).
 *
 * The class in module Agent runs the same steps imperatively and is proved to follow
 * these functions; the properties of the orchestrator are proved here.
 */
module AgentSpec {
  import opened Wrappers
  import opened ActionItems
  import opened LineNumbers
  import opened MessagesStore

  // ---------------------------------------------------------------------------
  // Foreign collaborators

  /** The lower-case hex text of a SHA-256 digest, as Guava prints it: 64 hex digits. */
  predicate IsSha256Hex(s: string)
  {
    |s| == 64 && forall i :: 0 <= i < |s| ==> IsHexDigit(s[i])
  }

  predicate IsHexDigit(c: char)
  {
    '0' <= c <= '9' || 'a' <= c <= 'f'
  }

  type HexDigest = s: string | IsSha256Hex(s)
    witness seq(64, _ => '0')

  /** `Character.isWhitespace`. */
  predicate IsJavaWhitespace(c: char)
  {
    ('\U{9}' <= c <= '\U{D}') || ('\U{1C}' <= c <= '\U{1F}') || c == ' ' || c == '\U{1680}'
    || ('\U{2000}' <= c <= '\U{2006}') || ('\U{2008}' <= c <= '\U{200A}')
    || c == '\U{2028}' || c == '\U{2029}' || c == '\U{205F}' || c == '\U{3000}'
  }

  /** `String.isBlank`: empty, or white space only. */
  predicate IsBlank(s: string)
  {
    forall i :: 0 <= i < |s| ==> IsJavaWhitespace(s[i])
  }

  /** A file hash is never blank, whatever the file, so a fetched file is always "in flight". */
  lemma DigestIsNotBlank(d: HexDigest)
    ensures !IsBlank(d)
  {
    assert IsHexDigit(d[0]);
  }

  /** `AgentBrain`: its fixed opening instructions, and its answer to a history (`None` for null). */
  datatype AgentBrain = AgentBrain(
    systemStartMessage: BrainMessage,
    nextAnswer: Option<seq<BrainMessage>> -> BrainMessage)

  datatype Collaborators = Collaborators(
    brain: AgentBrain,
    /** `Hashing.sha256().hashString(s, UTF_8).toString()`. */
    sha256: string -> HexDigest,
    /** The JSON reader: the tree of a text, `None` when the text is not JSON at all. */
    readJson: string -> Option<Json>)

  // ---------------------------------------------------------------------------
  // The command executor, seen from the agent

  /** The calls the agent makes on the command executor, in the order it makes them. */
  datatype Command =
    | NextFileCommand(repositoryId: string)
    | ActionPlanCommand(repositoryId: string, plan: ActionPlan)
    | FinishCommand(repositoryId: string)

  /**
   * The executor: the contents the remote tool will serve, per repository (an exhausted or
   * unknown repository serves ""), the repositories whose tool cannot be reached (a call
   * for them throws), and every call made so far.
   */
  datatype ExecutorState = ExecutorState(
    files: map<string, seq<string>>,
    unreachable: set<string>,
    commands: seq<Command>)

  /** `executeNextFileCommand`: the new executor state and the content, `None` when the call throws. */
  function FetchNextFile(ex: ExecutorState, repositoryId: string): (ExecutorState, Option<string>)
  {
    var logged := ex.(commands := ex.commands + [NextFileCommand(repositoryId)]);
    if repositoryId in ex.unreachable then (logged, None)
    else if repositoryId in ex.files && ex.files[repositoryId] != [] then
      (logged.(files := ex.files[repositoryId := ex.files[repositoryId][1..]]), Some(ex.files[repositoryId][0]))
    else (logged, Some(""))
  }

  /** `executeActionPlanCommand`: the new executor state and whether the call returned normally. */
  function SendActionPlan(ex: ExecutorState, repositoryId: string, plan: ActionPlan): (ExecutorState, bool)
  {
    (ex.(commands := ex.commands + [ActionPlanCommand(repositoryId, plan)]), repositoryId !in ex.unreachable)
  }

  /**
   * `executeFinishCommand`: the new executor state and whether the call returned normally.
   * The tool's address is forgotten before the finish is posted, so the post throws for an
   * unreachable tool, and a repeated finish posts nothing and cannot throw.
   */
  function SendFinish(ex: ExecutorState, repositoryId: string): (ExecutorState, bool)
  {
    (ex.(unreachable := ex.unreachable - {repositoryId}, commands := ex.commands + [FinishCommand(repositoryId)]),
     repositoryId !in ex.unreachable)
  }

  // ---------------------------------------------------------------------------
  // The agent's steps

  datatype AgentState = AgentState(
    messages: map<string, seq<BrainMessage>>,
    pending: seq<PendingMessage>,
    executor: ExecutorState)

  /** The result of handling a reply: the new state, and whether an exception escaped. */
  datatype Handled = Handled(state: AgentState, failed: bool)

  /**
   * `callBrain`: show the brain the repository's stored history, store its answer, and
   * queue the answer with the repository and `fileHash` as context.
   */
  function CallBrain(env: Collaborators, st: AgentState, repositoryId: string, fileHash: string): AgentState
  {
    var answer := env.brain.nextAnswer(Lookup(st.messages, repositoryId));
    st.(messages := StoreInLog(st.messages, repositoryId, answer),
        pending := st.pending + [PendingMessage(answer, MessageContext(repositoryId, fileHash))])
  }

  /** `startProcess`: store the brain's opening instructions, then call it with no file in flight. */
  function StartProcess(env: Collaborators, st: AgentState, repositoryId: string): AgentState
  {
    CallBrain(env, st.(messages := StoreInLog(st.messages, repositoryId, env.brain.systemStartMessage)),
              repositoryId, "")
  }

  /**
   * `finishProcess`: forget the conversation and tell the tool the session is over; fails
   * when telling the tool throws.
   */
  function FinishProcess(st: AgentState, repositoryId: string): Handled
  {
    var (ex, ok) := SendFinish(st.executor, repositoryId);
    Handled(st.(messages := DeleteFromLog(st.messages, repositoryId), executor := ex), !ok)
  }

  /**
   * `deserializeActionPlan`: the items of a reply. Text that does not read as a list of
   * items gives the empty list; a null list or a null item makes the list copy throw
   * (`None`).
   */
  function DeserializeActionPlan(env: Collaborators, plan: string): (r: Option<seq<ActionItem>>)
    ensures env.readJson(plan).None? ==> r == Some([])
    ensures env.readJson(plan).Some? && DecodeItems(env.readJson(plan).value).Malformed? ==> r == Some([])
    ensures env.readJson(plan).Some? && DecodeItems(env.readJson(plan).value).Items? ==>
              r == Some(DecodeItems(env.readJson(plan).value).items)
    ensures r.None? <==> env.readJson(plan).Some? && DecodeItems(env.readJson(plan).value).NullItems?
  {
    match env.readJson(plan)
    case None => Some([])
    case Some(j) =>
      match DecodeItems(j)
      case Items(items) => Some(items)
      case Malformed => Some([])
      case NullItems => None
  }

  /** The message that carries a fetched file to the brain (`getUserNextFileMessage`). */
  function UserNextFileMessage(fileContent: string): (r: BrainMessage)
    ensures r.messageType == USER
    ensures fileContent == "" || SplitLines(fileContent) == [] ==> r.content == ""
  {
    BrainMessage(USER, NumberedText(Some(fileContent)))
  }

  /** The file message's text splits back into the content's lines, each numbered from 1. */
  lemma UserNextFileMessageNumbersLines(fileContent: string)
    requires fileContent != "" && SplitLines(fileContent) != []
    ensures var lines := SplitLines(fileContent);
            var out := SplitLines(UserNextFileMessage(fileContent).content);
            && |out| == |lines|
            && forall i :: 0 <= i < |lines| ==> out[i] == NumberedLine(i + 1, lines[i])
  {
    NumberingKeepsLines(fileContent);
  }

  /** `executeNextFileCommand` of the agent. */
  function ExecuteNextFileCommand(env: Collaborators, st: AgentState, repositoryId: string): Handled
  {
    var (ex, content) := FetchNextFile(st.executor, repositoryId);
    if content.None? then Handled(st.(executor := ex), true)
    else
      var fileHash := env.sha256(content.value);
      var stored := StoreInLog(st.messages, repositoryId, UserNextFileMessage(content.value));
      Handled(CallBrain(env, st.(executor := ex, messages := stored), repositoryId, fileHash), false)
  }

  /** `executeActionPlanCommand` of the agent. */
  function ExecuteActionPlanCommand(env: Collaborators, st: AgentState, repositoryId: string, plan: ActionPlan): Handled
  {
    var (ex, ok) := SendActionPlan(st.executor, repositoryId, plan);
    if !ok then Handled(st.(executor := ex), true)
    else Handled(CallBrain(env, st.(executor := ex), repositoryId, ""), false)
  }

  /** `handleAssistantMessage`: "finish", "nextFile", or else an action plan. */
  function HandleAssistantMessage(env: Collaborators, st: AgentState, message: BrainMessage,
                                  repositoryId: string, currentFileHash: string): Handled
  {
    if message.content == "finish" then FinishProcess(st, repositoryId)
    else if message.content == "nextFile" then ExecuteNextFileCommand(env, st, repositoryId)
    else if IsBlank(currentFileHash) then Handled(st, true)
    else
      match DeserializeActionPlan(env, message.content)
      case None => Handled(st, true)
      case Some(items) => ExecuteActionPlanCommand(env, st, repositoryId, ActionPlan(currentFileHash, items))
  }

  /**
   * `processNextAssistantMessage`: take the head of the queue and handle it; when handling
   * throws, finish that repository's session again. An exception from that second finish
   * escapes the submitted job and is lost.
   */
  function ProcessNextAssistantMessage(env: Collaborators, st: AgentState): AgentState
    requires st.pending != []
  {
    var next := st.pending[0];
    var repositoryId := next.context.repositoryId;
    var handled := HandleAssistantMessage(env, st.(pending := st.pending[1..]), next.message,
                                          repositoryId, next.context.fileHash);
    if handled.failed then FinishProcess(handled.state, repositoryId).state else handled.state
  }

  /** One turn of the dispatcher: handle the reply at the head of the queue, if there is one. */
  function Step(env: Collaborators, st: AgentState): AgentState
  {
    if st.pending == [] then st else ProcessNextAssistantMessage(env, st)
  }

  // ---------------------------------------------------------------------------
  // What each kind of step does

  /**
   * Starting stores the opening instructions before the first brain call, shows the
   * brain the history that ends with them, and queues its answer with no file in flight.
   */
  lemma StartStoresSystemMessageFirst(env: Collaborators, st: AgentState, repositoryId: string)
    ensures var after := StartProcess(env, st, repositoryId);
            var before := Lookup(st.messages, repositoryId).GetOr([]);
            var system := env.brain.systemStartMessage;
            var answer := env.brain.nextAnswer(Some(before + [system]));
            && after.messages == st.messages[repositoryId := before + [system, answer]]
            && after.pending == st.pending + [PendingMessage(answer, MessageContext(repositoryId, ""))]
            && after.executor == st.executor
  {
    var before := Lookup(st.messages, repositoryId).GetOr([]);
    var system := env.brain.systemStartMessage;
    var stored := StoreInLog(st.messages, repositoryId, system);
    assert Lookup(stored, repositoryId) == Some(before + [system]);
    var answer := env.brain.nextAnswer(Some(before + [system]));
    assert before + [system] + [answer] == before + [system, answer];
    assert StoreInLog(stored, repositoryId, answer) == st.messages[repositoryId := before + [system, answer]];
  }

  /**
   * A brain call shows the brain the whole stored history, appends the answer to it and
   * queues exactly one reply, carrying the repository and the given hash.
   */
  lemma CallBrainQueuesOneReply(env: Collaborators, st: AgentState, repositoryId: string, fileHash: string)
    requires repositoryId in st.messages
    ensures var after := CallBrain(env, st, repositoryId, fileHash);
            var answer := env.brain.nextAnswer(Some(st.messages[repositoryId]));
            && after.messages == st.messages[repositoryId := st.messages[repositoryId] + [answer]]
            && after.pending == st.pending + [PendingMessage(answer, MessageContext(repositoryId, fileHash))]
            && after.executor == st.executor
  {
  }

  /**
   * A "finish" reply ends the session: history deleted, finish sent, no brain call, nothing
   * queued. When the tool cannot be reached the finish throws, and the dispatcher finishes
   * a second time, which posts nothing.
   */
  lemma FinishReplyEndsSession(env: Collaborators, st: AgentState)
    requires st.pending != [] && st.pending[0].message.content == "finish"
    ensures var r := st.pending[0].context.repositoryId;
            var after := ProcessNextAssistantMessage(env, st);
            && after.messages == st.messages - {r}
            && after.pending == st.pending[1..]
            && after.executor
               == st.executor.(unreachable := st.executor.unreachable - {r},
                               commands := st.executor.commands
                                           + (if r in st.executor.unreachable then [FinishCommand(r), FinishCommand(r)]
                                              else [FinishCommand(r)]))
  {
  }

  /**
   * Finishing forgets the tool: a finish fails exactly when the tool cannot be reached,
   * and a second finish for the same repository cannot fail.
   */
  lemma RepeatedFinishCannotFail(ex: ExecutorState, repositoryId: string)
    ensures SendFinish(ex, repositoryId).1 <==> repositoryId !in ex.unreachable
    ensures SendFinish(SendFinish(ex, repositoryId).0, repositoryId).1
  {
  }

  /** With the tool reachable, the agent's fetch stores the numbered file and calls the brain with its hash. */
  lemma FetchedFileGoesToBrain(env: Collaborators, st: AgentState, r: string)
    requires r !in st.executor.unreachable
    ensures var fetched := FetchNextFile(st.executor, r);
            var c := fetched.1.value;
            && fetched.1.Some?
            && fetched.0.commands == st.executor.commands + [NextFileCommand(r)]
            && ExecuteNextFileCommand(env, st, r)
               == Handled(CallBrain(env, st.(executor := fetched.0,
                                             messages := StoreInLog(st.messages, r, UserNextFileMessage(c))),
                                    r, env.sha256(c)), false)
  {
  }

  /** A "nextFile" reply with the tool reachable asks the tool for exactly one file, and gets one. */
  lemma NextFileReplyFetchesFile(env: Collaborators, st: AgentState)
    requires st.pending != [] && st.pending[0].message.content == "nextFile"
    requires st.pending[0].context.repositoryId !in st.executor.unreachable
    ensures var r := st.pending[0].context.repositoryId;
            var fetched := FetchNextFile(st.executor, r);
            && fetched.1.Some?
            && ProcessNextAssistantMessage(env, st).executor == fetched.0
            && fetched.0.commands == st.executor.commands + [NextFileCommand(r)]
  {
    FetchedFileGoesToBrain(env, st.(pending := st.pending[1..]), st.pending[0].context.repositoryId);
  }

  /** A "nextFile" reply with the tool reachable comes down to a brain call after the fetch. */
  lemma NextFileReplyCallsBrain(env: Collaborators, st: AgentState)
    requires st.pending != [] && st.pending[0].message.content == "nextFile"
    requires st.pending[0].context.repositoryId !in st.executor.unreachable
    ensures var r := st.pending[0].context.repositoryId;
            var fetched := FetchNextFile(st.executor, r);
            var c := fetched.1.value;
            ProcessNextAssistantMessage(env, st)
            == CallBrain(env, st.(pending := st.pending[1..], executor := fetched.0,
                                  messages := StoreInLog(st.messages, r, UserNextFileMessage(c))),
                         r, env.sha256(c))
  {
    FetchedFileGoesToBrain(env, st.(pending := st.pending[1..]), st.pending[0].context.repositoryId);
  }

  /**
   * A "nextFile" reply stores the fetched file line-numbered as a user message, and calls
   * the brain with the hash of the raw content as context (never blank, even for an empty
   * file: `DigestIsNotBlank`).
   */
  lemma NextFileReplySendsFile(env: Collaborators, st: AgentState)
    requires st.pending != [] && st.pending[0].message.content == "nextFile"
    requires st.pending[0].context.repositoryId !in st.executor.unreachable
    ensures var r := st.pending[0].context.repositoryId;
            var c := FetchNextFile(st.executor, r).1.value;
            var shown := Lookup(st.messages, r).GetOr([]) + [UserNextFileMessage(c)];
            var answer := env.brain.nextAnswer(Some(shown));
            var after := ProcessNextAssistantMessage(env, st);
            && after.messages == st.messages[r := shown + [answer]]
            && after.pending == st.pending[1..] + [PendingMessage(answer, MessageContext(r, env.sha256(c)))]
  {
    var r := st.pending[0].context.repositoryId;
    var fetched := FetchNextFile(st.executor, r);
    var c := fetched.1.value;
    var stored := StoreInLog(st.messages, r, UserNextFileMessage(c));
    var shown := Lookup(st.messages, r).GetOr([]) + [UserNextFileMessage(c)];
    var answer := env.brain.nextAnswer(Some(shown));
    var next := st.(pending := st.pending[1..], executor := fetched.0, messages := stored);
    NextFileReplyCallsBrain(env, st);
    assert next.messages[r] == shown;
    CallBrainQueuesOneReply(env, next, r, env.sha256(c));
    assert stored[r := shown + [answer]] == st.messages[r := shown + [answer]];
  }

  /** A "nextFile" reply whose tool cannot be reached ends the session. */
  lemma UnreachableToolEndsSession(env: Collaborators, st: AgentState)
    requires st.pending != [] && st.pending[0].message.content == "nextFile"
    requires st.pending[0].context.repositoryId in st.executor.unreachable
    ensures var r := st.pending[0].context.repositoryId;
            var after := ProcessNextAssistantMessage(env, st);
            && after.messages == st.messages - {r}
            && after.pending == st.pending[1..]
            && after.executor.commands == st.executor.commands + [NextFileCommand(r), FinishCommand(r)]
  {
  }

  /** Any other reply while no file is in flight throws, and the session ends with no plan sent. */
  lemma PlanWithoutFileEndsSession(env: Collaborators, st: AgentState)
    requires st.pending != []
    requires st.pending[0].message.content != "finish" && st.pending[0].message.content != "nextFile"
    requires IsBlank(st.pending[0].context.fileHash)
    ensures var r := st.pending[0].context.repositoryId;
            var after := ProcessNextAssistantMessage(env, st);
            && after.messages == st.messages - {r}
            && after.pending == st.pending[1..]
            && after.executor == st.executor.(unreachable := st.executor.unreachable - {r},
                                              commands := st.executor.commands + [FinishCommand(r)])
  {
  }

  /**
   * A plan reply while a file is in flight sends the parsed items with that file's hash,
   * then calls the brain with no file in flight.
   */
  lemma PlanReplySendsPlan(env: Collaborators, st: AgentState)
    requires st.pending != []
    requires st.pending[0].message.content != "finish" && st.pending[0].message.content != "nextFile"
    requires !IsBlank(st.pending[0].context.fileHash)
    requires DeserializeActionPlan(env, st.pending[0].message.content).Some?
    requires st.pending[0].context.repositoryId !in st.executor.unreachable
    ensures var r := st.pending[0].context.repositoryId;
            var plan := ActionPlan(st.pending[0].context.fileHash,
                                   DeserializeActionPlan(env, st.pending[0].message.content).value);
            var answer := env.brain.nextAnswer(Lookup(st.messages, r));
            var after := ProcessNextAssistantMessage(env, st);
            && after.executor == st.executor.(commands := st.executor.commands + [ActionPlanCommand(r, plan)])
            && after.messages == StoreInLog(st.messages, r, answer)
            && after.pending == st.pending[1..] + [PendingMessage(answer, MessageContext(r, ""))]
  {
  }

  /** A reply that is not a list of items becomes the empty plan; the session goes on. */
  lemma MalformedPlanBecomesEmpty(env: Collaborators, plan: string)
    requires env.readJson(plan).None? || DecodeItems(env.readJson(plan).value).Malformed?
    ensures DeserializeActionPlan(env, plan) == Some([])
  {
  }

  /** A well-formed list of items reads back as exactly those items. */
  lemma SerializedItemsAreRead(env: Collaborators, plan: string, items: seq<ActionItem>)
    requires env.readJson(plan) == Some(EncodeItems(items))
    ensures DeserializeActionPlan(env, plan) == Some(items)
  {
    DecodeEncodeItems(items);
  }

  /** A null list makes the list copy throw: no items come out. */
  lemma NullListThrows(env: Collaborators, plan: string)
    requires env.readJson(plan) == Some(JNull)
    ensures DeserializeActionPlan(env, plan).None?
  {
  }

  /**
   * A plan that cannot be handled (its list copy throws, or the tool cannot be reached)
   * ends the session: the plan is sent only when it was read, then the finish follows.
   */
  lemma PlanFailureEndsSession(env: Collaborators, st: AgentState)
    requires st.pending != []
    requires st.pending[0].message.content != "finish" && st.pending[0].message.content != "nextFile"
    requires !IsBlank(st.pending[0].context.fileHash)
    requires DeserializeActionPlan(env, st.pending[0].message.content).None?
             || st.pending[0].context.repositoryId in st.executor.unreachable
    ensures var r := st.pending[0].context.repositoryId;
            var items := DeserializeActionPlan(env, st.pending[0].message.content);
            var after := ProcessNextAssistantMessage(env, st);
            && after.messages == st.messages - {r}
            && after.pending == st.pending[1..]
            && after.executor.commands
               == st.executor.commands
                  + (if items.None? then []
                     else [ActionPlanCommand(r, ActionPlan(st.pending[0].context.fileHash, items.value))])
                  + [FinishCommand(r)]
  {
  }

  /**
   * Dispatch is first-in first-out across all repositories: a step consumes the head and
   * keeps every other queued reply, in order, ahead of the at most one it adds.
   */
  lemma DispatchKeepsQueueOrder(env: Collaborators, st: AgentState)
    requires st.pending != []
    ensures var after := ProcessNextAssistantMessage(env, st);
            && |st.pending| - 1 <= |after.pending| <= |st.pending|
            && after.pending[..|st.pending| - 1] == st.pending[1..]
  {
  }

  // ---------------------------------------------------------------------------
  // Sessions: one reply in flight per repository

  function Repositories(pending: seq<PendingMessage>): set<string>
  {
    set i | 0 <= i < |pending| :: pending[i].context.repositoryId
  }

  predicate DistinctRepositories(pending: seq<PendingMessage>)
  {
    forall i, j :: 0 <= i < j < |pending| ==> pending[i].context.repositoryId != pending[j].context.repositoryId
  }

  /**
   * A queued reply agrees with its repository's conversation: the conversation opens with
   * the brain's instructions and ends with this reply, and when the reply carries a file
   * hash, the message just before it is the numbered text of a file with that hash.
   */
  ghost predicate ConversationMatches(env: Collaborators, log: map<string, seq<BrainMessage>>, p: PendingMessage)
  {
    var r := p.context.repositoryId;
    && r in log
    && |log[r]| >= 2
    && log[r][0] == env.brain.systemStartMessage
    && log[r][|log[r]| - 1] == p.message
    && (p.context.fileHash == "" || FileInFlight(env, log[r], p.context.fileHash))
  }

  ghost predicate FileInFlight(env: Collaborators, history: seq<BrainMessage>, fileHash: string)
  {
    |history| >= 3
    && exists content :: history[|history| - 2] == UserNextFileMessage(content) && env.sha256(content) == fileHash
  }

  /**
   * Every live session has exactly one reply queued, and every queued reply belongs to a
   * live session whose conversation it matches.
   */
  ghost predicate SessionsWellFormed(env: Collaborators, st: AgentState)
  {
    && DistinctRepositories(st.pending)
    && st.messages.Keys == Repositories(st.pending)
    && forall i :: 0 <= i < |st.pending| ==> ConversationMatches(env, st.messages, st.pending[i])
  }

  lemma RepositoriesOfSnoc(q: seq<PendingMessage>, p: PendingMessage)
    ensures Repositories(q + [p]) == Repositories(q) + {p.context.repositoryId}
    ensures DistinctRepositories(q) && p.context.repositoryId !in Repositories(q) ==> DistinctRepositories(q + [p])
  {
    var q' := q + [p];
    forall x | x in Repositories(q) ensures x in Repositories(q') {
      var k :| 0 <= k < |q| && q[k].context.repositoryId == x;
      assert q'[k] == q[k];
    }
    assert q'[|q|] == p;
  }

  lemma RepositoriesOfTail(q: seq<PendingMessage>)
    requires q != [] && DistinctRepositories(q)
    ensures Repositories(q[1..]) == Repositories(q) - {q[0].context.repositoryId}
    ensures DistinctRepositories(q[1..])
  {
    var tail := q[1..];
    forall x | x in Repositories(q) - {q[0].context.repositoryId} ensures x in Repositories(tail) {
      var k :| 0 <= k < |q| && q[k].context.repositoryId == x;
      assert tail[k - 1] == q[k];
    }
    forall x | x in Repositories(tail) ensures x in Repositories(q) - {q[0].context.repositoryId} {
      var k :| 0 <= k < |tail| && tail[k].context.repositoryId == x;
      assert tail[k] == q[k + 1];
    }
  }

  /** A reply's match with its conversation does not depend on other repositories' conversations. */
  lemma ConversationOfOthers(env: Collaborators, log: map<string, seq<BrainMessage>>,
                             log': map<string, seq<BrainMessage>>, p: PendingMessage)
    requires ConversationMatches(env, log, p)
    requires p.context.repositoryId in log' && log'[p.context.repositoryId] == log[p.context.repositoryId]
    ensures ConversationMatches(env, log', p)
  {
  }

  /**
   * Changing (or removing) the head repository's conversation leaves the rest of the queue
   * matching theirs.
   */
  lemma {:induction false} TailUnaffected(env: Collaborators, st: AgentState, log': map<string, seq<BrainMessage>>)
    requires SessionsWellFormed(env, st) && st.pending != []
    requires forall x :: x in st.messages && x != st.pending[0].context.repositoryId ==> x in log' && log'[x] == st.messages[x]
    ensures forall i :: 0 <= i < |st.pending| - 1 ==> ConversationMatches(env, log', st.pending[1..][i])
    ensures forall i :: 0 <= i < |st.pending| - 1 ==> st.pending[1..][i].context.repositoryId != st.pending[0].context.repositoryId
  {
    forall i | 0 <= i < |st.pending| - 1
      ensures ConversationMatches(env, log', st.pending[1..][i])
      ensures st.pending[1..][i].context.repositoryId != st.pending[0].context.repositoryId
    {
      var p := st.pending[i + 1];
      assert st.pending[1..][i] == p;
      assert ConversationMatches(env, st.messages, p);
      ConversationOfOthers(env, st.messages, log', p);
    }
  }

  /** Ending the session at the head of the queue keeps the others well formed. */
  lemma {:induction false} EndHeadSession(env: Collaborators, st: AgentState, ex: ExecutorState)
    requires SessionsWellFormed(env, st) && st.pending != []
    ensures SessionsWellFormed(env, AgentState(st.messages - {st.pending[0].context.repositoryId}, st.pending[1..], ex))
  {
    var r := st.pending[0].context.repositoryId;
    var log := st.messages - {r};
    RepositoriesOfTail(st.pending);
    TailUnaffected(env, st, log);
    assert log.Keys == st.messages.Keys - {r};
  }

  /**
   * Replacing the conversation of the head's repository and queueing one new reply for it
   * that matches the new conversation keeps the sessions well formed.
   */
  lemma {:induction false} ContinueHeadSession(env: Collaborators, st: AgentState, history: seq<BrainMessage>,
                                               p: PendingMessage, ex: ExecutorState)
    requires SessionsWellFormed(env, st) && st.pending != []
    requires p.context.repositoryId == st.pending[0].context.repositoryId
    requires ConversationMatches(env, st.messages[p.context.repositoryId := history], p)
    ensures SessionsWellFormed(env, AgentState(st.messages[p.context.repositoryId := history], st.pending[1..] + [p], ex))
  {
    var r := p.context.repositoryId;
    var log := st.messages[r := history];
    var tail := st.pending[1..];
    RepositoriesOfTail(st.pending);
    RepositoriesOfSnoc(tail, p);
    TailUnaffected(env, st, log);
    assert log.Keys == st.messages.Keys;
    var q := tail + [p];
    forall i | 0 <= i < |q| ensures ConversationMatches(env, log, q[i]) {
      if i < |tail| { assert q[i] == tail[i]; } else { assert q[i] == p; }
    }
  }

  /** Opening a conversation for a repository with none, and queueing a reply that matches it, keeps the sessions well formed. */
  lemma {:induction false} OpenSession(env: Collaborators, st: AgentState, history: seq<BrainMessage>,
                                       p: PendingMessage, ex: ExecutorState)
    requires SessionsWellFormed(env, st) && p.context.repositoryId !in st.messages
    requires ConversationMatches(env, st.messages[p.context.repositoryId := history], p)
    ensures SessionsWellFormed(env, AgentState(st.messages[p.context.repositoryId := history], st.pending + [p], ex))
  {
    var log := st.messages[p.context.repositoryId := history];
    RepositoriesOfSnoc(st.pending, p);
    var q := st.pending + [p];
    forall i | 0 <= i < |q| ensures ConversationMatches(env, log, q[i]) {
      if i < |st.pending| {
        assert q[i] == st.pending[i];
        assert ConversationMatches(env, st.messages, st.pending[i]);
        ConversationOfOthers(env, st.messages, log, q[i]);
      } else {
        assert q[i] == p;
      }
    }
  }

  /** Starting a repository that has no conversation opens one well-formed session. */
  lemma {:induction false} StartKeepsSessionsWellFormed(env: Collaborators, st: AgentState, repositoryId: string)
    requires SessionsWellFormed(env, st) && repositoryId !in st.messages
    ensures SessionsWellFormed(env, StartProcess(env, st, repositoryId))
  {
    var system := env.brain.systemStartMessage;
    var answer := env.brain.nextAnswer(Some([system]));
    var p := PendingMessage(answer, MessageContext(repositoryId, ""));
    var history := [system, answer];
    StartStoresSystemMessageFirst(env, st, repositoryId);
    assert Lookup(st.messages, repositoryId).GetOr([]) == [];
    assert [] + [system] == [system] && [] + [system, answer] == history;
    OpenSession(env, st, history, p, st.executor);
    assert StartProcess(env, st, repositoryId) == AgentState(st.messages[repositoryId := history], st.pending + [p], st.executor);
  }

  /** Every dispatch step keeps the sessions well formed, whatever the brain and the tool answer. */
  lemma {:induction false} DispatchKeepsSessionsWellFormed(env: Collaborators, st: AgentState)
    requires SessionsWellFormed(env, st) && st.pending != []
    ensures SessionsWellFormed(env, ProcessNextAssistantMessage(env, st))
  {
    var head := st.pending[0];
    var r := head.context.repositoryId;
    var content := head.message.content;
    var after := ProcessNextAssistantMessage(env, st);
    assert ConversationMatches(env, st.messages, head);
    if content == "finish" {
      FinishReplyEndsSession(env, st);
      EndHeadSession(env, st, after.executor);
    } else if content == "nextFile" {
      if r in st.executor.unreachable {
        UnreachableToolEndsSession(env, st);
        EndHeadSession(env, st, after.executor);
      } else {
        NextFileReplyFetchesFile(env, st);
        NextFileReplySendsFile(env, st);
        var c := FetchNextFile(st.executor, r).1.value;
        var shown := st.messages[r] + [UserNextFileMessage(c)];
        var answer := env.brain.nextAnswer(Some(shown));
        var p := PendingMessage(answer, MessageContext(r, env.sha256(c)));
        var history := shown + [answer];
        assert history[|history| - 2] == UserNextFileMessage(c);
        assert FileInFlight(env, history, env.sha256(c));
        ContinueHeadSession(env, st, history, p, after.executor);
      }
    } else if IsBlank(head.context.fileHash) {
      PlanWithoutFileEndsSession(env, st);
      EndHeadSession(env, st, after.executor);
    } else if DeserializeActionPlan(env, content).None? || r in st.executor.unreachable {
      PlanFailureEndsSession(env, st);
      EndHeadSession(env, st, after.executor);
    } else {
      PlanReplySendsPlan(env, st);
      var answer := env.brain.nextAnswer(Some(st.messages[r]));
      var p := PendingMessage(answer, MessageContext(r, ""));
      ContinueHeadSession(env, st, st.messages[r] + [answer], p, after.executor);
    }
  }

  /**
   * In a well-formed state the blank-hash guard rejects exactly the replies with no file
   * in flight, and a reply with a hash answers the file whose numbered text the brain saw
   * just before it: the plan sent carries that file's hash.
   */
  lemma {:induction false} PlanHashIsOfFileShown(env: Collaborators, st: AgentState)
    requires SessionsWellFormed(env, st) && st.pending != []
    ensures var p := st.pending[0];
            var h := st.messages[p.context.repositoryId];
            && (IsBlank(p.context.fileHash) <==> p.context.fileHash == "")
            && (p.context.fileHash != "" ==>
                  exists c :: h[|h| - 2] == UserNextFileMessage(c) && env.sha256(c) == p.context.fileHash)
  {
    var p := st.pending[0];
    assert ConversationMatches(env, st.messages, p);
    if p.context.fileHash != "" {
      var h := st.messages[p.context.repositoryId];
      var c :| h[|h| - 2] == UserNextFileMessage(c) && env.sha256(c) == p.context.fileHash;
      DigestIsNotBlank(env.sha256(c));
    }
  }

  // ---------------------------------------------------------------------------
  // A whole session

  const TestRepository: string := "repositoryId"
  const TestItem: ActionItem := AddCommentAction(5, "comment")
  const Start: BrainMessage := BrainMessage(SYSTEM, "start")
  const AskFile: BrainMessage := BrainMessage(ASSISTANT, "nextFile")
  const Plan: BrainMessage := BrainMessage(ASSISTANT, "items")
  const Finish: BrainMessage := BrainMessage(ASSISTANT, "finish")

  /** The history after the first file and the plan for it. */
  function PlannedHistory(fileContent: string): seq<BrainMessage>
  {
    [Start, AskFile, UserNextFileMessage(fileContent), Plan]
  }

  /**
   * A brain that asks for a file, answers it with a plan, asks for another, and finishes on
   * the empty file; and a reader that reads that plan as the one comment item.
   */
  predicate ScriptedAsOneFileSession(env: Collaborators, fileContent: string)
  {
    && env.brain.systemStartMessage == Start
    && env.brain.nextAnswer(Some([Start])) == AskFile
    && env.brain.nextAnswer(Some([Start, AskFile, UserNextFileMessage(fileContent)])) == Plan
    && env.brain.nextAnswer(Some([Start, AskFile, UserNextFileMessage(fileContent), Plan])) == AskFile
    && env.brain.nextAnswer(Some([Start, AskFile, UserNextFileMessage(fileContent), Plan,
                                  AskFile, BrainMessage(USER, "")])) == Finish
    && env.readJson("items") == Some(EncodeItems([TestItem]))
  }

  function InitialState(fileContent: string): AgentState
  {
    AgentState(map[], [], ExecutorState(map[TestRepository := [fileContent, ""]], {}, []))
  }

  /** The states the session goes through, after the start and after each turn of the dispatcher. */
  function OneFileSessionState(env: Collaborators, fileContent: string, turn: nat): AgentState
    requires turn <= 4
  {
    var r := TestRepository;
    var sent := ActionPlanCommand(r, ActionPlan(env.sha256(fileContent), [TestItem]));
    match turn
    case 0 => AgentState(map[r := [Start, AskFile]], [PendingMessage(AskFile, MessageContext(r, ""))],
                         ExecutorState(map[r := [fileContent, ""]], {}, []))
    case 1 => AgentState(map[r := PlannedHistory(fileContent)],
                         [PendingMessage(Plan, MessageContext(r, env.sha256(fileContent)))],
                         ExecutorState(map[r := [""]], {}, [NextFileCommand(r)]))
    case 2 => AgentState(map[r := PlannedHistory(fileContent) + [AskFile]],
                         [PendingMessage(AskFile, MessageContext(r, ""))],
                         ExecutorState(map[r := [""]], {}, [NextFileCommand(r), sent]))
    case 3 => AgentState(map[r := PlannedHistory(fileContent) + [AskFile, BrainMessage(USER, ""), Finish]],
                         [PendingMessage(Finish, MessageContext(r, env.sha256("")))],
                         ExecutorState(map[r := []], {}, [NextFileCommand(r), sent, NextFileCommand(r)]))
    case 4 => AgentState(map[], [],
                         ExecutorState(map[r := []], {}, [NextFileCommand(r), sent, NextFileCommand(r), FinishCommand(r)]))
  }

  lemma OneFileSessionStarts(env: Collaborators, fileContent: string)
    requires ScriptedAsOneFileSession(env, fileContent)
    ensures StartProcess(env, InitialState(fileContent), TestRepository) == OneFileSessionState(env, fileContent, 0)
  {
    StartStoresSystemMessageFirst(env, InitialState(fileContent), TestRepository);
    assert Lookup(InitialState(fileContent).messages, TestRepository).GetOr([]) + [Start, AskFile] == [Start, AskFile];
    assert map[][TestRepository := [Start, AskFile]] == map[TestRepository := [Start, AskFile]];
  }

  lemma OneFileSessionFetchesFile(env: Collaborators, fileContent: string)
    requires ScriptedAsOneFileSession(env, fileContent)
    ensures Step(env, OneFileSessionState(env, fileContent, 0)) == OneFileSessionState(env, fileContent, 1)
  {
    var st := OneFileSessionState(env, fileContent, 0);
    NextFileReplyFetchesFile(env, st);
    NextFileReplySendsFile(env, st);
    assert [fileContent, ""][1..] == [""];
    assert map[TestRepository := [fileContent, ""]][TestRepository := [""]] == map[TestRepository := [""]];
    var fetched := FetchNextFile(st.executor, TestRepository);
    assert fetched.1 == Some(fileContent);
    assert fetched.0.files == map[TestRepository := [""]];
    assert fetched.0.commands == [] + [NextFileCommand(TestRepository)] == [NextFileCommand(TestRepository)];
    assert fetched.0 == OneFileSessionState(env, fileContent, 1).executor;
    assert Lookup(st.messages, TestRepository).GetOr([]) == [Start, AskFile];
    assert [Start, AskFile] + [UserNextFileMessage(fileContent)] == [Start, AskFile, UserNextFileMessage(fileContent)];
    assert [Start, AskFile] + [UserNextFileMessage(fileContent)] + [Plan] == PlannedHistory(fileContent);
    assert st.pending[1..] == [];
    assert map[TestRepository := [Start, AskFile]][TestRepository := PlannedHistory(fileContent)]
        == map[TestRepository := PlannedHistory(fileContent)];
  }

  lemma OneFileSessionSendsPlan(env: Collaborators, fileContent: string)
    requires ScriptedAsOneFileSession(env, fileContent)
    ensures Step(env, OneFileSessionState(env, fileContent, 1)) == OneFileSessionState(env, fileContent, 2)
  {
    var st := OneFileSessionState(env, fileContent, 1);
    DigestIsNotBlank(env.sha256(fileContent));
    SerializedItemsAreRead(env, "items", [TestItem]);
    PlanReplySendsPlan(env, st);
    assert [NextFileCommand(TestRepository)] + [ActionPlanCommand(TestRepository, ActionPlan(env.sha256(fileContent), [TestItem]))]
        == OneFileSessionState(env, fileContent, 2).executor.commands;
    assert StoreInLog(st.messages, TestRepository, AskFile) == map[TestRepository := PlannedHistory(fileContent) + [AskFile]];
  }

  lemma OneFileSessionFetchesEmptyFile(env: Collaborators, fileContent: string)
    requires ScriptedAsOneFileSession(env, fileContent)
    ensures Step(env, OneFileSessionState(env, fileContent, 2)) == OneFileSessionState(env, fileContent, 3)
  {
    var st := OneFileSessionState(env, fileContent, 2);
    var after := OneFileSessionState(env, fileContent, 3);
    NextFileReplyFetchesFile(env, st);
    NextFileReplySendsFile(env, st);
    assert [""][1..] == [];
    assert map[TestRepository := [""]][TestRepository := []] == map[TestRepository := []];
    assert st.executor.commands + [NextFileCommand(TestRepository)] == after.executor.commands;
    assert UserNextFileMessage("") == BrainMessage(USER, "");
    assert PlannedHistory(fileContent) + [AskFile] + [BrainMessage(USER, "")]
        == [Start, AskFile, UserNextFileMessage(fileContent), Plan, AskFile, BrainMessage(USER, "")];
    assert PlannedHistory(fileContent) + [AskFile] + [BrainMessage(USER, "")] + [Finish]
        == PlannedHistory(fileContent) + [AskFile, BrainMessage(USER, ""), Finish];
    assert st.messages[TestRepository := after.messages[TestRepository]] == after.messages;
  }

  lemma OneFileSessionFinishes(env: Collaborators, fileContent: string)
    ensures Step(env, OneFileSessionState(env, fileContent, 3)) == OneFileSessionState(env, fileContent, 4)
  {
    var st := OneFileSessionState(env, fileContent, 3);
    FinishReplyEndsSession(env, st);
    assert st.messages - {TestRepository} == map[];
    assert st.executor.unreachable - {TestRepository} == {};
    assert st.executor.commands + [FinishCommand(TestRepository)]
        == OneFileSessionState(env, fileContent, 4).executor.commands;
  }

  /** Each turn of the dispatcher takes the session to its next state. */
  lemma OneFileSessionTurn(env: Collaborators, fileContent: string, turn: nat)
    requires ScriptedAsOneFileSession(env, fileContent) && turn < 4
    ensures Step(env, OneFileSessionState(env, fileContent, turn)) == OneFileSessionState(env, fileContent, turn + 1)
  {
    if turn == 0 {
      OneFileSessionFetchesFile(env, fileContent);
    } else if turn == 1 {
      OneFileSessionSendsPlan(env, fileContent);
    } else if turn == 2 {
      OneFileSessionFetchesEmptyFile(env, fileContent);
    } else {
      OneFileSessionFinishes(env, fileContent);
    }
  }

  /** `n` applications of `step`, starting from `s`. */
  function Iterate<S>(step: S -> S, s: S, n: nat): S
    decreases n
  {
    if n == 0 then s else step(Iterate(step, s, n - 1))
  }

  /** The dispatcher thread, as a function from state to state. */
  function Dispatcher(env: Collaborators): AgentState -> AgentState
  {
    st => Step(env, st)
  }

  /**
   * The dispatcher loop, bounded: `steps` turns of the dispatcher. A turn that finds the
   * queue empty changes nothing (the listener keeps waiting).
   */
  function Run(env: Collaborators, st: AgentState, steps: nat): AgentState
  {
    Iterate(Dispatcher(env), st, steps)
  }

  /**
   * One file, one plan, then an empty file: for any brain and reader scripted as in
   * `ScriptedAsOneFileSession` and any hash function, the session started for the test
   * repository goes, turn by turn of the dispatcher, through exactly the states of
   * `OneFileSessionState`, and from the fourth turn on stays in the last one: two files
   * fetched, exactly one plan sent, carrying the hash of the first file, the finish sent,
   * no conversation and no queued reply left.
   */
  lemma {:induction false} OneFileSession(env: Collaborators, fileContent: string, steps: nat)
    requires ScriptedAsOneFileSession(env, fileContent)
    ensures Run(env, StartProcess(env, InitialState(fileContent), TestRepository), steps)
            == OneFileSessionState(env, fileContent, if steps <= 4 then steps else 4)
    decreases steps
  {
    if steps == 0 {
      OneFileSessionStarts(env, fileContent);
    } else if steps <= 4 {
      OneFileSession(env, fileContent, steps - 1);
      OneFileSessionTurn(env, fileContent, steps - 1);
    } else {
      OneFileSession(env, fileContent, steps - 1);
      assert OneFileSessionState(env, fileContent, 4).pending == [];
    }
  }
}
