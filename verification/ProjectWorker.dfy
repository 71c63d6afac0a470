/** One task turn of a project worker and its loop (src/project_worker.py). */
module ProjectWorker {
  import opened Base
  import opened TaskTable
  import opened TaskQueues
  import opened BranchPrep
  import opened GitModel
  import opened TaskNotifier

  datatype Exit = TimedOutExit | Code(rc: int)

  /** What the world decides during one turn: git's answer, the process id, how
      the process ended, its output tail, and whether somebody cancelled the row
      while it ran. */
  datatype TurnWorld = TurnWorld(allowed: bool, pid: int, cancelled: bool, exit: Exit, output: string)

  /** The row update the worker makes when it still finds the row running. */
  function MarkExit(t: Table, id: int, exit: Exit): Table {
    match exit
    case TimedOutExit => TaskTable.MarkFailed(t, id, TimedOut)
    case Code(rc) => if rc == 0 then TaskTable.MarkDone(t, id) else TaskTable.MarkFailed(t, id, ExitedWith(rc))
  }

  /** The table just before the worker looks at the row's status again. */
  function AfterProcess(t: Table, id: int, w: TurnWorld): Table {
    var launched := TaskTable.SetPid(t, id, w.pid);
    TaskTable.SetOutput(if w.cancelled then TaskTable.Cancel(launched, id) else launched, id, w.output)
  }

  datatype Turn = Turn(table: Table, repo: Repo, told: bool)

  /** The part of a turn that follows a successful preparation. */
  function Supervised(t: Table, id: int, w: TurnWorld): (Table, bool) {
    var ran := AfterProcess(t, id, w);
    var stillRunning := id in ran.rows && ran.rows[id].status == Running;
    (if stillRunning then MarkExit(ran, id, w.exit) else ran, stillRunning || w.exit.TimedOutExit?)
  }

  /** One whole turn on a claimed task. */
  function TurnOf(t: Table, isRepo: bool, r: Repo, id: nat, task: Task, w: TurnWorld): Turn {
    var p := Prepare(t, isRepo, r, id, task, w.allowed);
    if !p.ok then Turn(p.table, p.repo, true)
    else
      var (after, told) := Supervised(p.table, id, w);
      Turn(after, p.repo, told)
  }

  method RunTask(queue: TaskQueue, claimed: Claimed, dir: Checkout, notices: Notices, world: TurnWorld)
    requires claimed.id >= 0 && claimed.id in queue.table.rows
    modifies queue, dir, notices
    ensures var turn := TurnOf(old(queue.table), dir.isRepo, old(dir.repo), claimed.id, claimed.task, world);
            && queue.table == turn.table && dir.repo == turn.repo
            && claimed.id in turn.table.rows
            && notices.sent == old(notices.sent) +
                               if turn.told then [Claimed(claimed.id, turn.table.rows[claimed.id])] else []
  {
    var id := claimed.id;
    var ok := PrepareBranch(queue, id, claimed.task, dir, world.allowed);
    PrepareWrites(old(queue.table), dir.isRepo, old(dir.repo), id, claimed.task, world.allowed);
    if !ok {
      Finish(queue, id, notices);
    } else {
      Supervise(queue, id, notices, world);
    }
  }

  /** From launching the process to the last status update. */
  method Supervise(queue: TaskQueue, id: int, notices: Notices, world: TurnWorld)
    requires id in queue.table.rows
    modifies queue, notices
    ensures var (after, told) := Supervised(old(queue.table), id, world);
            && queue.table == after && id in after.rows
            && notices.sent == old(notices.sent) + if told then [Claimed(id, after.rows[id])] else []
  {
    queue.SetPid(id, world.pid);
    if world.cancelled {
      queue.Cancel(id);  // the canceller's step, taken while the process runs
    }
    queue.SetOutput(id, world.output);
    var row := queue.Get(id);
    if world.exit.TimedOutExit? {
      if row.value.status == Running {
        queue.MarkFailed(id, TimedOut);
      }
      Finish(queue, id, notices);
      return;
    }
    if row.value.status != Running {
      return;
    }
    if world.exit.rc == 0 {
      queue.MarkDone(id);
    } else {
      queue.MarkFailed(id, ExitedWith(world.exit.rc));
    }
    Finish(queue, id, notices);
  }

  method Finish(queue: TaskQueue, id: int, notices: Notices)
    requires id in queue.table.rows
    modifies notices
    ensures notices.sent == old(notices.sent) + [Claimed(id, queue.table.rows[id])]
  {
    var row := queue.Get(id);
    notices.NotifyTaskDone(id, row.value);
  }

  /** The same for the part after preparation. */
  lemma SupervisedMeaning(t: Table, id: int, w: TurnWorld)
    requires id in t.rows && t.rows[id].status == Running
    ensures
      var (after, told) := Supervised(t, id, w);
      && after.rows.Keys == t.rows.Keys && after.next == t.next
      && (forall x | x in t.rows && x != id :: after.rows[x] == t.rows[x])
      && after.rows[id].status == (if w.cancelled then Cancelled else if w.exit == Code(0) then Done else Failed)
      && after.rows[id] == t.rows[id].(pid := Some(w.pid), output := w.output, status := after.rows[id].status,
                                       error := after.rows[id].error)
      && after.rows[id].error == (if w.cancelled || w.exit == Code(0) then t.rows[id].error
                                  else if w.exit.TimedOutExit? then TimedOut
                                  else ExitedWith(w.exit.rc))
      && (!told <==> w.cancelled && w.exit.Code?)
  {
  }

  /** A turn on a running row always leaves that row terminal, with the status
      its ending calls for, and announces it unless a canceller, who announces
      it himself, got there first and the process then ended on its own. */
  lemma TurnMeaning(t: Table, isRepo: bool, r: Repo, id: nat, task: Task, w: TurnWorld)
    requires id in t.rows && t.rows[id].status == Running
    ensures
      var turn := TurnOf(t, isRepo, r, id, task, w);
      var prepared := Prepare(t, isRepo, r, id, task, w.allowed).ok;
      && turn.table.rows.Keys == t.rows.Keys && turn.table.next == t.next
      && (forall x | x in t.rows && x != id :: turn.table.rows[x] == t.rows[x])
      && turn.table.rows[id].status ==
         (if !prepared then Failed
          else if w.cancelled then Cancelled
          else if w.exit == Code(0) then Done
          else Failed)
      && (prepared ==> turn.table.rows[id].pid == Some(w.pid) && turn.table.rows[id].output == w.output)
      && turn.table.rows[id].error ==
         (if !prepared then Prepare(t, isRepo, r, id, task, w.allowed).table.rows[id].error
          else if w.cancelled || w.exit == Code(0) then t.rows[id].error
          else if w.exit.TimedOutExit? then TimedOut
          else ExitedWith(w.exit.rc))
      && (!turn.told <==> prepared && w.cancelled && w.exit.Code?)
  {
    PrepareSafe(t, isRepo, r, id, task, w.allowed);
    var p := Prepare(t, isRepo, r, id, task, w.allowed);
    if p.ok {
      SupervisedMeaning(p.table, id, w);
    }
  }
}
