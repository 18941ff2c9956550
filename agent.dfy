/**
 * `RefactoringAgent` as the object it is: it owns a messages store and a command executor
 * and updates them in place, one task at a time on its processing thread. Every method is
 * proved to move the state exactly as the matching function of module AgentSpec does, so
 * the properties proved there hold of these methods.
 */
module Agent {
  import opened Wrappers
  import opened ActionItems
  import opened LineNumbers
  import opened MessagesStore
  import opened AgentSpec

  /**
   * The command executor as the agent sees it: the remote tool is scripted by the
   * contents it will serve per repository and the repositories it cannot be reached for;
   * every call is logged. A call that throws in the source returns a failure here.
   */
  class CommandExecutor {
    var files: map<string, seq<string>>
    var unreachable: set<string>
    var commands: seq<Command>

    ghost function Snapshot(): ExecutorState
      reads this
    {
      ExecutorState(files, unreachable, commands)
    }

    constructor (files: map<string, seq<string>>, unreachable: set<string>)
      ensures Snapshot() == ExecutorState(files, unreachable, [])
    {
      this.files := files;
      this.unreachable := unreachable;
      this.commands := [];
    }

    /** `executeNextFileCommand`: the next file's content, "" once the repository is done; `None` when the call throws. */
    method ExecuteNextFileCommand(repositoryId: string) returns (content: Option<string>)
      modifies this
      ensures (Snapshot(), content) == FetchNextFile(old(Snapshot()), repositoryId)
    {
      commands := commands + [NextFileCommand(repositoryId)];
      if repositoryId in unreachable {
        content := None;
      } else if repositoryId in files && files[repositoryId] != [] {
        content := Some(files[repositoryId][0]);
        files := files[repositoryId := files[repositoryId][1..]];
      } else {
        content := Some("");
      }
    }

    /** `executeActionPlanCommand`: whether the plan was delivered (false when the call throws). */
    method ExecuteActionPlanCommand(repositoryId: string, plan: ActionPlan) returns (ok: bool)
      modifies this
      ensures (Snapshot(), ok) == SendActionPlan(old(Snapshot()), repositoryId, plan)
    {
      commands := commands + [ActionPlanCommand(repositoryId, plan)];
      ok := repositoryId !in unreachable;
    }

    /** `executeFinishCommand`: whether the call returned normally; the tool is forgotten either way. */
    method ExecuteFinishCommand(repositoryId: string) returns (ok: bool)
      modifies this
      ensures (Snapshot(), ok) == SendFinish(old(Snapshot()), repositoryId)
    {
      commands := commands + [FinishCommand(repositoryId)];
      ok := repositoryId !in unreachable;
      unreachable := unreachable - {repositoryId};
    }
  }

  class RefactoringAgent {
    const env: Collaborators
    const messagesStore: InMemoryMessagesStore
    const commandExecutor: CommandExecutor

    /** The agent's state, as module AgentSpec describes it. */
    ghost function State(): AgentState
      reads messagesStore, commandExecutor
    {
      AgentState(messagesStore.messages, messagesStore.pendingMessagesWithContext, commandExecutor.Snapshot())
    }

    constructor (env: Collaborators, messagesStore: InMemoryMessagesStore, commandExecutor: CommandExecutor)
      ensures this.env == env && this.messagesStore == messagesStore && this.commandExecutor == commandExecutor
    {
      this.env := env;
      this.messagesStore := messagesStore;
      this.commandExecutor := commandExecutor;
    }

    /** `startProcess`: store the opening instructions, then call the brain with no file in flight. */
    method StartProcess(repositoryId: string)
      modifies messagesStore
      ensures State() == AgentSpec.StartProcess(env, old(State()), repositoryId)
    {
      messagesStore.StoreMessage(repositoryId, env.brain.systemStartMessage);
      CallBrain(repositoryId, "");
    }

    /** `processNextAssistantMessage`: take the head of the queue and handle it; finish the session when that throws. */
    method ProcessNextAssistantMessage()
      requires messagesStore.pendingMessagesWithContext != []
      modifies messagesStore, commandExecutor
      ensures State() == AgentSpec.ProcessNextAssistantMessage(env, old(State()))
    {
      var next := messagesStore.AwaitNextPendingMessageWithContext();
      var failed := HandleAssistantMessage(next.message, next.context.repositoryId, next.context.fileHash);
      if failed {
        var _ := FinishProcess(next.context.repositoryId);
      }
    }

    /**
     * The listener loop, bounded: `steps` turns, each handling the reply at the head of the
     * queue when there is one.
     */
    method RunDispatcher(steps: nat)
      modifies messagesStore, commandExecutor
      ensures State() == Run(env, old(State()), steps)
    {
      for i := 0 to steps
        invariant State() == Run(env, old(State()), i)
      {
        if messagesStore.pendingMessagesWithContext != [] {
          ProcessNextAssistantMessage();
        }
      }
    }

    /** `handleAssistantMessage`; returns whether an exception escaped. */
    method HandleAssistantMessage(message: BrainMessage, repositoryId: string, currentFileHash: string)
      returns (failed: bool)
      modifies messagesStore, commandExecutor
      ensures Handled(State(), failed)
              == AgentSpec.HandleAssistantMessage(env, old(State()), message, repositoryId, currentFileHash)
    {
      if message.content == "finish" {
        failed := FinishProcess(repositoryId);
        return;
      }
      if message.content == "nextFile" {
        failed := ExecuteNextFileCommand(repositoryId);
      } else {
        if IsBlank(currentFileHash) {
          return true;
        }
        var actionItems := DeserializeActionPlan(env, message.content);
        if actionItems.None? {
          return true;
        }
        failed := ExecuteActionPlanCommand(repositoryId, ActionPlan(currentFileHash, actionItems.value));
      }
    }

    /** `executeNextFileCommand`: fetch, store the numbered file, call the brain with the file's hash. */
    method ExecuteNextFileCommand(repositoryId: string) returns (failed: bool)
      modifies messagesStore, commandExecutor
      ensures Handled(State(), failed) == AgentSpec.ExecuteNextFileCommand(env, old(State()), repositoryId)
    {
      var fileContent := commandExecutor.ExecuteNextFileCommand(repositoryId);
      if fileContent.None? {
        return true;
      }
      var fileHash := env.sha256(fileContent.value);
      var numbered := AppendLineNumbers(fileContent);
      messagesStore.StoreMessage(repositoryId, BrainMessage(USER, numbered));
      CallBrain(repositoryId, fileHash);
      failed := false;
    }

    /** `executeActionPlanCommand`: send the plan, then call the brain with no file in flight. */
    method ExecuteActionPlanCommand(repositoryId: string, actionPlan: ActionPlan) returns (failed: bool)
      modifies messagesStore, commandExecutor
      ensures Handled(State(), failed) == AgentSpec.ExecuteActionPlanCommand(env, old(State()), repositoryId, actionPlan)
    {
      var ok := commandExecutor.ExecuteActionPlanCommand(repositoryId, actionPlan);
      if !ok {
        return true;
      }
      CallBrain(repositoryId, "");
      failed := false;
    }

    /** `callBrain`: show the brain the stored history, store its answer and queue it with its context. */
    method CallBrain(repositoryId: string, fileHash: string)
      modifies messagesStore
      ensures State() == AgentSpec.CallBrain(env, old(State()), repositoryId, fileHash)
    {
      var messages := messagesStore.GetMessages(repositoryId);
      assert messages == Lookup(old(State()).messages, repositoryId);
      var message := env.brain.nextAnswer(messages);
      messagesStore.StoreMessage(repositoryId, message);
      messagesStore.StorePendingMessageWithContext(PendingMessage(message, MessageContext(repositoryId, fileHash)));
    }

    /** `finishProcess`: forget the conversation, then tell the tool; returns whether that threw. */
    method FinishProcess(repositoryId: string) returns (failed: bool)
      modifies messagesStore, commandExecutor
      ensures Handled(State(), failed) == AgentSpec.FinishProcess(old(State()), repositoryId)
    {
      messagesStore.DeleteMessages(repositoryId);
      var ok := commandExecutor.ExecuteFinishCommand(repositoryId);
      failed := !ok;
    }
  }
}
