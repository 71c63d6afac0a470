/** Cancelling a project's running task (src/task_control.py). */
module TaskControl {
  import opened Base
  import opened TaskTable
  import opened TaskQueues
  import opened GhostReaper
  import opened TaskNotifier

  datatype Signal = Term(pid: int) | Kill(pid: int)

  /** What the operating system answers: SIGTERM found the process, and it was
      gone before the grace period ended. */
  datatype KillWorld = KillWorld(found: bool, exited: bool)

  datatype CancelResult = Idle(drained: Option<nat>) | CancelledTask(id: int, drained: Option<nat>)

  /** The table after a cancel request. */
  function CancelledTable(t: Table, p: string, drain: bool): Table {
    var running := GetRunning(t, p);
    var t' := if running == None then t else TaskTable.Cancel(t, running.value);
    if drain then Drain(t', p) else t'
  }

  method CancelRunningTask(queue: TaskQueue, project: string, notices: Notices, drain: bool, world: KillWorld)
    returns (result: CancelResult, signals: seq<Signal>)
    modifies queue, notices
    ensures queue.table == CancelledTable(old(queue.table), project, drain)
    ensures match GetRunning(old(queue.table), project)
            case None =>
              && notices.sent == old(notices.sent) && signals == []
              && result == Idle(if drain then Some(|PendingSet(old(queue.table), project)|) else None)
            case Some(id) =>
              && notices.sent == old(notices.sent) + [Claimed(id, old(queue.table).rows[id].(status := Cancelled))]
              && signals == (match old(queue.table).rows[id].pid
                             case None => []
                             case Some(pid) =>
                               if pid <= 0 then []
                               else [Term(pid)] + if world.found && !world.exited then [Kill(pid)] else [])
              && result == CancelledTask(id, if drain then Some(|PendingSet(old(queue.table), project)|) else None)
  {
    signals := [];
    var drained: Option<nat> := None;
    var running := GetRunning(queue.table, project);
    if running == None {
      if drain {
        var n := queue.DrainPending(project);
        drained := Some(n);
      }
      return Idle(drained), signals;
    }
    var id := running.value;
    var pid := PidOf(queue.table.rows[id]);
    if pid > 0 {
      signals := signals + [Term(pid)];
      if !world.found {
        pid := 0;
      }
      if pid > 0 && !world.exited {
        signals := signals + [Kill(pid)];
      }
    }
    queue.Cancel(id);
    var row := queue.Get(id);
    notices.NotifyTaskDone(id, row.value);
    if drain {
      assert PendingSet(queue.table, project) == PendingSet(old(queue.table), project);
      var n := queue.DrainPending(project);
      drained := Some(n);
    }
    result := CancelledTask(id, drained);
  }

  /** A cancel touches the project's running row, and with a drain its pending rows,
      and nothing else. */
  lemma CancelMeaning(t: Table, p: string, drain: bool)
    requires WellFormed(t)
    requires forall x, y | IsRunning(t, p, x) && IsRunning(t, p, y) :: x == y
    ensures
      var t' := CancelledTable(t, p, drain);
      && t'.next == t.next && t'.rows.Keys == t.rows.Keys
      && forall id | id in t.rows ::
           var row := t.rows[id];
           t'.rows[id] == if row.project == p && (row.status == Running || (drain && row.status == Pending))
                          then row.(status := Cancelled) else row
  {
    GetRunningMeaning(t, p);
    var t' := CancelledTable(t, p, drain);
    forall id | id in t.rows
      ensures IsRunning(t, p, id) ==> GetRunning(t, p) == Some(id)
    {
    }
  }

  /** "Stop everything": with at most one running row in the project, a draining
      cancel leaves it neither running nor pending work, and other projects as
      they were. */
  lemma CancelStopsProject(t: Table, p: string)
    requires WellFormed(t)
    requires forall x, y | IsRunning(t, p, x) && IsRunning(t, p, y) :: x == y
    ensures forall id :: !IsRunning(CancelledTable(t, p, true), p, id) && !IsPending(CancelledTable(t, p, true), p, id)
    ensures forall id | id in t.rows ::
              && id in CancelledTable(t, p, true).rows
              && (t.rows[id].project != p || Rank(t.rows[id].status) >= 2 ==>
                    CancelledTable(t, p, true).rows[id] == t.rows[id])
  {
    GetRunningMeaning(t, p);
    var t' := CancelledTable(t, p, true);
    forall id ensures !IsRunning(t', p, id) && !IsPending(t', p, id) {
      if id in t.rows && IsRunning(t, p, id) {
        assert GetRunning(t, p) == Some(id);
      }
    }
  }
}
