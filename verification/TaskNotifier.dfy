/** Completion notices (src/task_notifier.py:26-48): what the workers, the
    canceller and the reaper ask to have announced. */
module TaskNotifier {
  import opened TaskTable
  import opened TaskQueues

  /** The calls of `notify_task_done`, oldest first. The call never raises: when its
      insert fails it logs that and returns. */
  class Notices {
    var sent: seq<Claimed>

    constructor ()
      ensures sent == []
    {
      sent := [];
    }

    method NotifyTaskDone(id: int, row: Task)
      modifies this
      ensures sent == old(sent) + [Claimed(id, row)]
    {
      sent := sent + [Claimed(id, row)];
    }
  }
}
