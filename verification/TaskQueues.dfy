/** `TaskQueue` (src/task_queue.py): an object that holds the table and runs one
    SQL statement per method. */
module TaskQueues {
  import opened Base
  import opened TaskTable

  /** The dict a claim returns: the row with its id. */
  datatype Claimed = Claimed(id: int, task: Task)

  /** UPDATE ... WHERE id=?: one row, if there is one. */
  ghost predicate Updates(t: Table, t': Table, id: int, change: Task -> Task) {
    t' == if id in t.rows then t.(rows := t.rows[id := change(t.rows[id])]) else t
  }

  class TaskQueue {
    var table: Table

    /** Opens a file that may already hold rows. */
    constructor (stored: Table)
      ensures table == stored
    {
      table := stored;
    }

    method Enqueue(project: string, body: string, priority: int, retryOf: Option<int>, branch: string,
                   mutates: Option<bool>)
      returns (id: int)
      modifies this
      ensures (table, id) == Insert(old(table), NewTask(project, body, priority, retryOf, branch, mutates))
      ensures id == old(table).next && table.next == id + 1
      ensures table.rows == old(table).rows[id := Task(project, body, Pending, priority, retryOf, branch, mutates,
                                                       None, Missing, NoReason, "")]
    {
      id := table.next;
      var row := Task(project, body, Pending, priority, retryOf, branch, mutates, None, Missing, NoReason, "");
      table := Table(table.rows[id := row], id + 1);
    }

    method EnqueueRouted(project: string, body: string, now: int) returns (id: int)
      modifies this
      ensures (table, id) == Insert(old(table), RoutedTask(project, body, now))
      ensures id == old(table).next && table.next == id + 1
      ensures table.rows == old(table).rows[id := Task(project, body, RoutedViaAgent, 0, None, "", None, None, At(now),
                                                       NoReason, "")]
    {
      id := table.next;
      var row := Task(project, body, RoutedViaAgent, 0, None, "", None, None, At(now), NoReason, "");
      table := Table(table.rows[id := row], id + 1);
    }

    /** The whole claim is one UPDATE ... RETURNING statement. */
    method ClaimNext(project: string, now: int) returns (claimed: Option<Claimed>)
      modifies this
      ensures table == Claim(old(table), project, now).0
      ensures claimed == match Claim(old(table), project, now).1
                         case None => None
                         case Some(id) => Some(Claimed(id, table.rows[id]))
    {
      var first := First(table, project);
      var running := GetRunning(table, project);
      if first == None || running != None {
        return None;
      }
      var row := table.rows[first.value].(status := Running, startedAt := At(now));
      table := table.(rows := table.rows[first.value := row]);
      claimed := Some(Claimed(first.value, row));
    }

    method MarkDone(id: int)
      modifies this
      ensures table == TaskTable.MarkDone(old(table), id)
      ensures Updates(old(table), table, id, (row: Task) => row.(status := Done))
    {
      if id in table.rows {
        table := table.(rows := table.rows[id := table.rows[id].(status := Done)]);
      }
    }

    method MarkFailed(id: int, why: Reason)
      modifies this
      ensures table == TaskTable.MarkFailed(old(table), id, why)
      ensures Updates(old(table), table, id, (row: Task) => row.(status := Failed, error := why))
    {
      if id in table.rows {
        table := table.(rows := table.rows[id := table.rows[id].(status := Failed, error := why)]);
      }
    }

    method Cancel(id: int)
      modifies this
      ensures table == TaskTable.Cancel(old(table), id)
      ensures Updates(old(table), table, id, (row: Task) => row.(status := Cancelled))
    {
      if id in table.rows {
        table := table.(rows := table.rows[id := table.rows[id].(status := Cancelled)]);
      }
    }

    method SetPid(id: int, pid: int)
      modifies this
      ensures table == TaskTable.SetPid(old(table), id, pid)
      ensures Updates(old(table), table, id, (row: Task) => row.(pid := Some(pid)))
    {
      if id in table.rows {
        table := table.(rows := table.rows[id := table.rows[id].(pid := Some(pid))]);
      }
    }

    method SetBranch(id: int, branch: string)
      modifies this
      ensures table == TaskTable.SetBranch(old(table), id, branch)
      ensures Updates(old(table), table, id, (row: Task) => row.(branch := branch))
    {
      if id in table.rows {
        table := table.(rows := table.rows[id := table.rows[id].(branch := branch)]);
      }
    }

    method SetOutput(id: int, output: string)
      modifies this
      ensures table == TaskTable.SetOutput(old(table), id, output)
      ensures Updates(old(table), table, id, (row: Task) => row.(output := output))
    {
      if id in table.rows {
        table := table.(rows := table.rows[id := table.rows[id].(output := output)]);
      }
    }

    method DrainPending(project: string) returns (count: nat)
      modifies this
      ensures table == Drain(old(table), project)
      ensures count == |PendingSet(old(table), project)|
    {
      count := |set id | id in table.rows && IsPending(table, project, id)|;
      var rows := table.rows;
      table := table.(rows := map id | id in rows ::
                                if rows[id].project == project && rows[id].status == Pending
                                then rows[id].(status := Cancelled) else rows[id]);
    }

    /** The running rows of every project, in id order. */
    method ListRunningRows() returns (rows: seq<Claimed>)
      requires WellFormed(table)
      ensures |rows| == |ListRunning(table)|
      ensures forall i | 0 <= i < |rows| :: rows[i].id == ListRunning(table)[i]
      ensures forall i | 0 <= i < |rows| :: rows[i].id in table.rows && rows[i].task == table.rows[rows[i].id]
    {
      var t := table;
      var ids := ListRunning(t);
      ListRunningMeaning(t);
      assert forall i | 0 <= i < |ids| :: ids[i] in ids;
      rows := seq(|ids|, i requires 0 <= i < |ids| && ids[i] in t.rows => Claimed(ids[i], t.rows[ids[i]]));
    }

    method Get(id: int) returns (row: Option<Task>)
      ensures row == if id in table.rows then Some(table.rows[id]) else None
    {
      row := if id in table.rows then Some(table.rows[id]) else None;
    }
  }
}
