/**
 * The record of what the refactoring did (`ChangesCollector`): a set of (file name,
 * action item) pairs that only grows, read back as a snapshot when the session ends.
 */
module Changes {
  import opened ActionItems

  class ChangesCollector {
    /** `actionsWithFileName`. */
    var actionsWithFileName: set<(string, ActionItem)>

    constructor ()
      ensures actionsWithFileName == {}
    {
      actionsWithFileName := {};
    }

    /**
     * `recordActionItem`: add the pair. Nothing recorded is ever lost, and recording a
     * pair already there changes nothing.
     */
    method RecordActionItem(fileName: string, action: ActionItem)
      modifies this
      ensures actionsWithFileName == old(actionsWithFileName) + {(fileName, action)}
      ensures old(actionsWithFileName) <= actionsWithFileName
      ensures (fileName, action) in old(actionsWithFileName) ==> actionsWithFileName == old(actionsWithFileName)
    {
      actionsWithFileName := actionsWithFileName + {(fileName, action)};
    }

    /** `getRecordedActionsWithFileName`: a copy of the recorded pairs; the record is left as it was. */
    method GetRecordedActionsWithFileName() returns (r: set<(string, ActionItem)>)
      ensures r == actionsWithFileName
    {
      r := actionsWithFileName;
    }
  }
}
