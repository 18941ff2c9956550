/**
 * The client end of the file-hash correlation (`AgentToolController`): it serves the
 * project's files to the agent one at a time, remembers each served file under the hash
 * of the content it served, and runs an action plan on the file its hash names.
 *
 * The HTTP routing, the IDE's document lookup and the refactoring of a file are outside
 * the model: a file carries the text of its document (if it has one), the hash function
 * is a parameter, and running an item on a file is recorded as an `Execution`.
 */
module ToolController {
  import opened Wrappers
  import opened ActionItems

  /** A project file: its path, and the text of its document (`None` when the IDE has none). */
  datatype VirtualFile = VirtualFile(path: string, document: Option<string>)

  /** `getContent`: the document's text, or "" for a file without a document. */
  function GetContent(file: VirtualFile): (r: string)
    ensures file.document.Some? ==> r == file.document.value
    ensures file.document.None? ==> r == ""
  {
    file.document.GetOr("")
  }

  /**
   * The status the "/actions/execute" handler answers with. An exception that escapes the
   * handler is answered by the server framework with 500 (`InternalServerError`).
   */
  datatype Response = OK | BadRequest(message: string) | InternalServerError

  /** One call `refactoringExecutor.execute(file, project, item)` that returned normally. */
  datatype Execution = Execution(file: VirtualFile, item: ActionItem)

  /**
   * How many items of a plan run before the first one whose execution throws: all of
   * them when none throws.
   */
  function CompletedBeforeFailure(throws: (VirtualFile, ActionItem) -> bool, file: VirtualFile,
                                  items: seq<ActionItem>): (k: nat)
    ensures k <= |items|
    ensures forall i :: 0 <= i < k ==> !throws(file, items[i])
    ensures k < |items| ==> throws(file, items[k])
    decreases |items|
  {
    if items == [] || throws(file, items[0]) then 0
    else 1 + CompletedBeforeFailure(throws, file, items[1..])
  }

  class AgentToolController {
    /** `Hashing.sha256().hashString(_, UTF_8).toString()`. */
    const sha256: string -> string
    /** Whether `refactoringExecutor.execute` throws for an item on a file. */
    const throws: (VirtualFile, ActionItem) -> bool
    /** `fileQueue`: the files still to serve, head first. */
    var fileQueue: seq<VirtualFile>
    /** `filesByHash`. */
    var filesByHash: map<string, VirtualFile>
    /** The items run so far, in the order they were run. */
    var executed: seq<Execution>
    /** The content each remembered file had when it was served, by the same hash. */
    ghost var served: map<string, string>

    /** Every remembered file was served with a content whose hash is its key. */
    ghost predicate Valid()
      reads this
    {
      && served.Keys == filesByHash.Keys
      && forall hash :: hash in served ==> sha256(served[hash]) == hash
    }

    constructor (sha256: string -> string, throws: (VirtualFile, ActionItem) -> bool, fileQueue: seq<VirtualFile>)
      ensures this.sha256 == sha256 && this.throws == throws && this.fileQueue == fileQueue
      ensures filesByHash == map[] && executed == []
      ensures Valid()
    {
      this.sha256 := sha256;
      this.throws := throws;
      this.fileQueue := fileQueue;
      this.filesByHash := map[];
      this.executed := [];
      this.served := map[];
    }

    /**
     * GET "/files/next": with no file left, respond "" and change nothing; otherwise take the
     * head of the queue, remember it under the hash of its content (replacing any file
     * served earlier with the same content) and respond with that content.
     */
    method NextFile() returns (response: string)
      requires Valid()
      modifies this
      ensures Valid()
      ensures old(fileQueue) == [] ==>
                response == "" && fileQueue == [] && filesByHash == old(filesByHash) && served == old(served)
      ensures old(fileQueue) != [] ==>
                && response == GetContent(old(fileQueue)[0])
                && fileQueue == old(fileQueue)[1..]
                && filesByHash == old(filesByHash)[sha256(response) := old(fileQueue)[0]]
                && served == old(served)[sha256(response) := response]
      ensures old(filesByHash).Keys <= filesByHash.Keys
      ensures executed == old(executed)
    {
      if fileQueue == [] {
        return "";
      }
      var file := fileQueue[0];
      fileQueue := fileQueue[1..];
      var fileContent := GetContent(file);
      var hash := sha256(fileContent);
      filesByHash := filesByHash[hash := file];
      served := served[hash := fileContent];
      response := fileContent;
    }

    /**
     * POST "/actions/execute": a plan whose hash names no served file is rejected with
     * "ABSENT_FILE" and runs nothing. Otherwise the items run in plan order on the file
     * served with that hash (the plan was computed for the content served then); the first
     * item whose execution throws ends the handler with the rest not run, and the answer is
     * OK only when every item ran.
     */
    method ExecuteActionPlan(actionPlan: ActionPlan) returns (response: Response)
      requires Valid()
      modifies this
      ensures Valid()
      ensures fileQueue == old(fileQueue) && filesByHash == old(filesByHash) && served == old(served)
      ensures actionPlan.fileHash !in filesByHash ==> response == BadRequest("ABSENT_FILE") && executed == old(executed)
      ensures actionPlan.fileHash in filesByHash ==>
                var file := filesByHash[actionPlan.fileHash];
                var items := actionPlan.actionItems;
                var completed := CompletedBeforeFailure(throws, file, items);
                && sha256(served[actionPlan.fileHash]) == actionPlan.fileHash
                && response == (if completed == |items| then OK else InternalServerError)
                && |executed| == |old(executed)| + completed
                && executed[..|old(executed)|] == old(executed)
                && forall i :: 0 <= i < completed ==> executed[|old(executed)| + i] == Execution(file, items[i])
    {
      var file := Lookup(filesByHash, actionPlan.fileHash);
      if file.None? {
        return BadRequest("ABSENT_FILE");
      }
      var items := actionPlan.actionItems;
      var i := 0;
      while i < |items|
        invariant 0 <= i <= |items|
        invariant forall k :: 0 <= k < i ==> !throws(file.value, items[k])
        invariant fileQueue == old(fileQueue) && filesByHash == old(filesByHash) && served == old(served)
        invariant |executed| == |old(executed)| + i
        invariant executed[..|old(executed)|] == old(executed)
        invariant forall k :: 0 <= k < i ==> executed[|old(executed)| + k] == Execution(file.value, items[k])
      {
        if throws(file.value, items[i]) {
          break;
        }
        executed := executed + [Execution(file.value, items[i])];
        i := i + 1;
      }
      response := if i == |items| then OK else InternalServerError;
    }
  }
}
