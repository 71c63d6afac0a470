/** Enqueue and retry as the MCP tools do them (chat/project_tools.py). The path
    check and the worker process are oracles: `resolved` is None when the project
    is rejected, `worker` is None when no worker could be started. */
module ProjectTools {
  import opened Base
  import opened GitNames
  import opened TaskTable
  import opened TaskQueues

  const MIN_PRIORITY := 0
  const MAX_PRIORITY := 10

  predicate InRange(p: int) { MIN_PRIORITY <= p <= MAX_PRIORITY }

  function Distance(a: int, b: int): nat { if a < b then b - a else a - b }

  /** The allowed priority nearest to the requested one. */
  function ClampPriority(priority: int): (p: int)
    ensures InRange(p)
    ensures forall q | InRange(q) && q != p :: Distance(priority, p) < Distance(priority, q)
  {
    if priority < MIN_PRIORITY then MIN_PRIORITY
    else if priority > MAX_PRIORITY then MAX_PRIORITY
    else priority
  }

  datatype ToolError = BadProject | NoWorker | NotFound | NotTerminal(status: Status)

  datatype Enqueued = Enqueued(id: int, worker: int, plannedBranch: string)

  datatype Retried = Retried(newId: int, retryOf: int, worker: int)

  /** `classify` stands for `classify_mutation`: true, false or unknown. */
  method EnqueueTaskTool(queue: TaskQueue, resolved: Option<string>, worker: Option<int>, body: string,
                         priority: int, mutates: Option<bool>, classify: string -> Option<bool>)
    returns (r: Result<Enqueued, ToolError>)
    modifies queue
    ensures r.Failure? <==> resolved == None || worker == None
    ensures r.Failure? ==> queue.table == old(queue.table)
                           && r.error == if resolved == None then BadProject else NoWorker
    ensures r.Success? ==>
              var effective := if mutates == None then classify(body) else mutates;
              && queue.table == Insert(old(queue.table), NewTask(resolved.value, body, ClampPriority(priority), None,
                                                                 "", effective)).0
              && queue.table.rows ==
                 old(queue.table).rows[r.value.id := Task(resolved.value, body, Pending, ClampPriority(priority), None,
                                                          "", effective, None, Missing, NoReason, "")]
              && r.value.id == old(queue.table).next && r.value.worker == worker.value
              && r.value.plannedBranch ==
                 if effective == Some(false) then "" else TaskBranchName(r.value.id, body)
  {
    if resolved == None { return Failure(BadProject); }
    if worker == None { return Failure(NoWorker); }
    var effective := mutates;
    if effective == None { effective := classify(body); }
    var id := queue.Enqueue(resolved.value, body, ClampPriority(priority), None, "", effective);
    var planned := if effective == Some(false) then "" else TaskBranchName(id, body);
    r := Success(Enqueued(id, worker.value, planned));
  }

  /** The row a retry inserts. */
  function RetryRow(original: Task, id: int, newBody: string): Task {
    NewTask(original.project, if Strip(newBody) != "" then Strip(newBody) else original.body,
            ClampPriority(original.priority), Some(id), original.branch, original.mutates)
  }

  /** The one new row: the original's project, branch and verdict, its priority as
      far as allowed, and the new body unless that is blank; pending, from scratch. */
  ghost predicate Retries(original: Task, id: int, newBody: string, t: Table, t': Table, newId: int) {
    && newId == t.next && t'.next == newId + 1
    && newId in t'.rows && t'.rows == t.rows[newId := t'.rows[newId]]
    && var row := t'.rows[newId];
       && row.project == original.project && row.branch == original.branch && row.mutates == original.mutates
       && row.retryOf == Some(id) && row.status == Pending && row.priority == ClampPriority(original.priority)
       && row.body == (if forall i | 0 <= i < |newBody| :: IsSpace(newBody[i]) then original.body else Strip(newBody))
       && row.pid == None && row.startedAt == Missing && row.error == NoReason && row.output == ""
  }

  method RetryTaskTool(queue: TaskQueue, id: int, newBody: string, worker: Option<int>)
    returns (r: Result<Retried, ToolError>)
    modifies queue
    ensures match r
            case Failure(e) =>
              && queue.table == old(queue.table)
              && e == (if id !in queue.table.rows then NotFound
                       else if !Terminal(queue.table.rows[id].status) then NotTerminal(queue.table.rows[id].status)
                       else NoWorker)
              && (e == NoWorker ==> worker == None)
            case Success(v) =>
              && id in old(queue.table).rows && Terminal(old(queue.table).rows[id].status) && worker.Some?
              && (queue.table, v.newId) ==
                 Insert(old(queue.table), RetryRow(old(queue.table).rows[id], id, newBody))
              && Retries(old(queue.table).rows[id], id, newBody, old(queue.table), queue.table, v.newId)
              && v.retryOf == id && v.worker == worker.value
  {
    var original := queue.Get(id);
    if original == None { return Failure(NotFound); }
    var row := original.value;
    if !Terminal(row.status) { return Failure(NotTerminal(row.status)); }
    var body := if Strip(newBody) != "" then Strip(newBody) else row.body;
    if worker == None { return Failure(NoWorker); }
    StripExactly(newBody);
    var newId := queue.Enqueue(row.project, body, ClampPriority(row.priority), Some(id), row.branch, row.mutates);
    r := Success(Retried(newId, id, worker.value));
  }
}
