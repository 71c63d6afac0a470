/** Routing an email that answers one of our messages (src/reply_router.py, the
    reply branch of src/chat_router.py). */
module ReplyRouter {
  import opened Base
  import opened GitNames
  import opened ChatDbs
  import TQ = TaskQueues
  import T = TaskTable
  import M = MessageTable

  /** The reply branch of `classify_email`: which message an In-Reply-To names. */
  datatype ChatReply = ChatReply(agent: string, original: int)

  function ClassifyEmail(t: M.Messages, inReplyTo: string): Option<ChatReply> {
    var header := Strip(inReplyTo);
    var id := if header == "" then None else M.FindByEmailId(t, header);
    if id.Some? then Some(ChatReply(t.rows[id.value].sender, id.value)) else None
  }

  datatype Route = AskRoute | ProjectRoute(path: string) | BusRoute

  /** `projectOf` is the agent's resolved project directory when it exists and
      lies under the allowed base. */
  function ClassifyReply(t: M.Messages, original: int, projectOf: Option<string>): Route {
    if original in t.rows && t.rows[original].kind == M.Ask then AskRoute
    else if projectOf.Some? then ProjectRoute(projectOf.value)
    else BusRoute
  }

  /** The branch a follow-up should continue on, or "". `here` is the branch the
      project is on now. */
  function PriorBranch(store: map<string, Outbound>, tasks: T.Table, header: string, project: string, agent: string,
                       here: string): string {
    if header == "" || header !in store then ""
    else
      var sent := store[header];
      if sent.sender == "" || sent.sender != agent then ""
      else if sent.taskId == None || sent.taskId == Some(0) then
        if IsValidTaskBranch(Strip(here)) then Strip(here) else ""
      else if sent.taskId.value !in tasks.rows || tasks.rows[sent.taskId.value].project != project then ""
      else
        var branch := Strip(tasks.rows[sent.taskId.value].branch);
        if branch == "" || !IsValidTaskBranch(branch) then "" else branch
  }

  /** What the acknowledgement promises about the branch. */
  datatype Ack = ContinuePrior(branch: string) | ReadOnlyTask | Planned(branch: string)

  function FormatAck(id: nat, prior: string, mutates: Option<bool>, body: string): Ack {
    if prior != "" then ContinuePrior(prior)
    else if mutates == Some(false) then ReadOnlyTask
    else Planned(TaskBranchName(id, body))
  }

  datatype Applied =
    | Queued(id: int, worker: int, ack: Ack)
    | CouldNotQueue
    | AnswerDelivered
    | DeliveredOnBus

  /** The reply row: from the user to the agent, naming the original message. */
  function ReplyRow(agent: string, original: int, body: string, now: int): M.Message {
    M.NewMessage("user", agent, body, M.Reply, Some(original), None, "", "", now)
  }

  function TableOf(queue: Option<TQ.TaskQueue>): Option<T.Table>
    reads if queue.Some? then {queue.value} else {}
  {
    if queue.Some? then Some(queue.value.table) else None
  }

  /** What a reply with this text does to the queue, if there is one, and what it
      is answered. */
  ghost predicate Routes(route: Route, store: map<string, Outbound>, before: Option<T.Table>, after: Option<T.Table>,
                         header: string, agent: string, here: string, body: string, mutates: Option<bool>,
                         worker: Option<int>, r: Applied) {
    if route.ProjectRoute? && before.Some? then
      if worker == None then r == CouldNotQueue && after == before
      else
        var id := before.value.next;
        var prior := PriorBranch(store, before.value, header, route.path, agent, here);
        && after == Some(T.Insert(before.value, T.NewTask(route.path, body, 0, None, prior, mutates)).0)
        && r == Queued(id, worker.value, FormatAck(id, prior, mutates, body))
    else r == (if route.AskRoute? then AnswerDelivered else DeliveredOnBus) && after == before
  }

  /** The email answered is one that this agent sent. */
  ghost predicate FromAgent(store: map<string, Outbound>, header: string, agent: string) {
    header != "" && header in store && store[header].sender == agent != ""
  }

  /** `branch` is what a reply continues: the recorded branch of the task the
      answered email is about, or, when that email is about none, the branch the
      project is on. */
  ghost predicate Continues(store: map<string, Outbound>, tasks: T.Table, header: string, project: string,
                            agent: string, here: string, branch: string) {
    && FromAgent(store, header, agent) && IsValidTaskBranch(branch)
    && match store[header].taskId
       case None => branch == Strip(here)
       case Some(task) =>
         if task == 0 then branch == Strip(here)
         else task in tasks.rows && tasks.rows[task].project == project && branch == Strip(tasks.rows[task].branch)
  }

  /** The whole effect of a reply: who is answered what, and which row is queued. */
  ghost predicate ReplyDone(t: M.Messages, original: int, projectOf: Option<string>, store: map<string, Outbound>,
                          before: Option<T.Table>, after: Option<T.Table>, header: string, agent: string, here: string,
                          body: string, mutates: Option<bool>, worker: Option<int>, r: Applied) {
    if original in t.rows && t.rows[original].kind == M.Ask then r == AnswerDelivered && after == before
    else if projectOf == None || before == None then r == DeliveredOnBus && after == before
    else if worker == None then r == CouldNotQueue && after == before
    else
      var id := before.value.next;
      exists branch, ack ::
        && (if branch != "" then Continues(store, before.value, header, projectOf.value, agent, here, branch)
            else forall b :: !Continues(store, before.value, header, projectOf.value, agent, here, b))
        && after.Some? && after.value.next == id + 1
        && after.value.rows == before.value.rows[id := T.Task(projectOf.value, body, T.Pending, 0, None, branch,
                                                              mutates, None, T.Missing, T.NoReason, "")]
        && r == Queued(id, worker.value, ack)
        && ack == (if branch != "" then ContinuePrior(branch)
                   else if mutates == Some(false) then ReadOnlyTask
                   else Planned(TaskBranchName(id, body)))
  }

  /** `projectOf`, `here`, `classify` and `worker` (None when no worker can be
      started) are answers of the surroundings. */
  method ApplyReply(db: ChatDb, queue: Option<TQ.TaskQueue>, agent: string, original: int, body: string,
                    header: string, projectOf: Option<string>, here: string,
                    classify: string -> Option<bool>, worker: Option<int>, now: int)
    returns (r: Applied)
    modifies db`messages, db`events, if queue.Some? then {queue.value} else {}
    ensures db.messages == M.Insert(old(db.messages), ReplyRow(agent, original, body, now)).0
    ensures db.events == old(db.events) + [LogEvent("message", now)] && db.outbound == old(db.outbound)
    ensures Routes(ClassifyReply(old(db.messages), original, projectOf), old(db.outbound), old(TableOf(queue)),
                   TableOf(queue), header, agent, here, body, classify(body), worker, r)
    ensures ReplyDone(old(db.messages), original, projectOf, old(db.outbound), old(TableOf(queue)), TableOf(queue),
                    header, agent, here, body, classify(body), worker, r)
  {
    var route := ClassifyReply(db.messages, original, projectOf);
    var replyId := db.InsertMessage(ReplyRow(agent, original, body, now));
    if route.ProjectRoute? && queue.Some? {
      var prior := PriorBranch(db.outbound, queue.value.table, header, route.path, agent, here);
      var mutates := classify(body);
      if worker == None {
        r := CouldNotQueue;
      } else {
        var id := queue.value.Enqueue(route.path, body, 0, None, prior, mutates);
        r := Queued(id, worker.value, FormatAck(id, prior, mutates, body));
      }
    } else if route.AskRoute? {
      r := AnswerDelivered;
    } else {
      r := DeliveredOnBus;
    }
    RoutesReply(old(db.messages), original, projectOf, db.outbound, old(TableOf(queue)), TableOf(queue), header, agent,
                here, body, classify(body), worker, r);
  }

  /** A reply continues a branch exactly when there is one to continue, and then
      that very branch: stripped, schema-valid, of a task of the same project, and
      only in answer to an email of the same agent. */
  lemma PriorBranchMeaning(store: map<string, Outbound>, tasks: T.Table, header: string, project: string,
                           agent: string, here: string)
    ensures var b := PriorBranch(store, tasks, header, project, agent, here);
            && (forall branch :: Continues(store, tasks, header, project, agent, here, branch) <==> branch == b != "")
            && (b != "" ==> IsValidTaskBranch(b) && Strip(b) == b)
  {
    assert !IsValidTaskBranch("");
    if header in store {
      StripEdges(here);
      if store[header].taskId.Some? && store[header].taskId.value in tasks.rows {
        StripEdges(tasks.rows[store[header].taskId.value].branch);
      }
    }
  }

  lemma RoutesReply(t: M.Messages, original: int, projectOf: Option<string>, store: map<string, Outbound>,
                    before: Option<T.Table>, after: Option<T.Table>, header: string, agent: string, here: string,
                    body: string, mutates: Option<bool>, worker: Option<int>, r: Applied)
    requires Routes(ClassifyReply(t, original, projectOf), store, before, after, header, agent, here, body, mutates,
                    worker, r)
    ensures ReplyDone(t, original, projectOf, store, before, after, header, agent, here, body, mutates, worker, r)
  {
    var route := ClassifyReply(t, original, projectOf);
    if route.ProjectRoute? && before.Some? && worker.Some? {
      var branch := PriorBranch(store, before.value, header, route.path, agent, here);
      PriorBranchMeaning(store, before.value, header, route.path, agent, here);
      assert Continues(store, before.value, header, route.path, agent, here, branch) <==> branch != "";
      assert r == Queued(before.value.next, worker.value, r.ack);
    }
  }
}
