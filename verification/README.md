# Verified model of the claude-email runtime

A Dafny model of the part of the system that moves tasks and messages between
agents: one SQLite database driven by several concurrent actors, and the
git-branch discipline that rides on it. What is proved is about every input,
every run and every interleaving, not about chosen examples.

## What is modelled

- **Transaction wrapper** (`TxWrapper`, `TxMachine`, `TxAgreement`, `TxBus`). One shared connection is a
  pair of durable and working state with an open-transaction flag. `TxWrapper`
  is the wrapper's code for one thread: retry, rollback, connection replacement,
  nested bodies, after-commit hooks. `TxMachine` interleaves any number of
  threads, other processes and transactions left open by unwrapped statements,
  one step at a time, and shows that a call is an atomic step. `TxAgreement`
  proves that a thread of the machine, for any body and failures, does what the
  wrapper's code does. `TxBus` puts the message bus behind it: the file is always
  a run of bus statements, each body in one piece.
- **Task queue and its actors** (`TaskTable`, `TaskQueues`, `TaskNotifier`,
  `ProjectTools`, `ProjectWorker`, `WorkerLoops`, `TaskControl`, `GhostReaper`). Each SQL
  statement is one function on the table; the classes and methods are the code
  that runs them. `QueueMachine` splits every actor into single statements, git
  commands and notifications, with its local variables in an `Actor` value, so
  anything can happen between two steps. `QueueSafety` holds the invariants,
  `QueueTheorems` what follows over whole runs, `TurnRefinement` and
  `ActorRefinement` tie the small steps back to the one-call worker turn, cancel
  and sweep, `QueueLimits` shows what the queue does not promise, and
  `QueueFinality` when it holds all the same.
- **Branch preparation** (`GitNames`, `GitModel`, `BranchPrep`): slugs, branch
  names and the decision matrix over a repository of HEAD, branches and a dirty
  flag; `AckAgreement` joins it to the queue and to the reply acknowledgement.
- **Wake watcher** (`WakeSessions`, `WakeWatcher`, `WakeTurns`): one turn for one agent, the
  failure tracker with its escalation, and the session cache in front of the
  persisted store.
- **Message bus** (`MessageTable`, `ChatDbs`, `BusRuns`, `ChatRelay`,
  `ReplyRouter`, `ReactionRouter`, `AskAnswer`): the life of a message, the relay
  to email, replies and reactions, and the round trip of a question and its answer.
- **Thread transcript** (`ThreadWalk`, `EmailThread`), the walk and its caps for any
  kind of id, then the stored messages; and the **event stream** (`EventStream`).

Functions on tables specify the statements; each method is proved against them,
and the lemmas say what they mean.

## Assumptions

- One SQL statement of the task queue is atomic; for the bus the wrapper provides
  it (`TxBus`). A commit that fails leaves the durable state as it was. Reopening a connection succeeds.
- Session ids are not empty.
- Liveness of a process, the clock, the mail server, git's own refusals, how a
  process ends, path checks and starting a worker are inputs. The clock of the
  session cache is monotone.
- A Message-ID is fresh when it first appears, and only the routing of replies and
  reactions writes rows of type `reply` (`AskAnswer`).
- An after-commit hook that itself calls `_run_tx` is a call by another thread of
  the machine: the lock and the depth are released before hooks fire.
- People never create schema-shaped branches by hand (`QueueMachine.HandMade`);
  two projects may share a repository.
- Event-stream rows are committed in increasing id order, ids are never used
  again, and no row is deleted that the stream has yet to send.
- Unwrapped statements, which leave a transaction open on the shared connection,
  run only while no thread holds the wrapper's lock (`TxMachine.LeaveOpen`).
- `notify_task_done` swallows every exception, so "announced" means that it was
  called for the task, not that its message was stored.
- No agent is called `user`, nor like the watcher's addressee: status rows and
  notices would be new mail for it.
- The poll interval of `ask_user` is positive; with zero the source's loop does
  not end while no reply comes.

## Where the code and its documentation disagree

- The transcript's docstring promises that the newest turn is always preserved
  when one turn is in budget. It survives exactly when a turn is allowed and its
  own body fits the character cap (`ThreadWalk.NewestSurvives`).
- The new inbound message is meant never to be part of its own context. With an
  unknown Message-ID it gets in exactly when the thread stored before leads from the
  call's anchor back to it with room in depth, turns and characters
  (`EmailThread.InOwnContextExactlyWhen`). A progress note sent about the message is
  such a thread when the message names the note as its parent
  (`EmailThread.NoteBringsItIn`); a call that anchors at the message itself gets it as
  its context exactly when its body fits (`EmailThread.AnchoredAtItself`).
- Positive reactions are meant to answer a question with "yes". One does exactly when
  its tag is spelled without the letters that the case-blind pattern accepts and
  lower-casing leaves outside ASCII (`ReactionRouter.SaysYesExactlyWhen`).
- A negative `turn_cap` makes the first truncation loop pop an empty list; the
  model returns that error.
- Finished states are not final among themselves (`QueueLimits.CancelledThenDone`);
  a row's is exactly when no actor may still write another (`QueueFinality.FinalExactlyWhen`).
- `delivered` is not final (`BusRuns.DeliveredIsNotFinal`); a message stays
  delivered exactly when no failure mark finds it (`BusRuns.DeliveredStaysExactlyWhen`).

A nested `_run_tx` joins the outer transaction, as its documentation says: if its
caller catches what it raises, its writes commit (`TxWrapper.GuardedNestedWritesSurvive`).

## Model

| member | source | states |
|---|---|---|
| `TxWrapper.TransactionMixin.RunTxOuter` | src/chat_db_tx.py:124-165 | a call that returns applied exactly one attempt's writes once and fired exactly the hooks of that attempt; one that raises changed nothing and fired none; the retry happens only after "database is locked"; nothing stays open |
| `TxWrapper.TransactionMixin.RunAttempt` | src/chat_db_tx.py:127-142 | BEGIN, body, COMMIT: all of the body's writes become durable, or none and the hook list is empty again |
| `TxWrapper.TransactionMixin.RunBody` | src/chat_db_tx.py:113-122 | a body with nested calls leaves depth as it was and adds exactly the writes and hooks it did before it raised |
| `TxWrapper.TransactionMixin.RunOp` | src/chat_db_tx.py:113-122 | a nested call joins the outer transaction and restores the depth on every exit |
| `TxWrapper.TransactionMixin.CheckOrRecoverAtDepthZero` | src/chat_db_tx.py:83-92 | afterwards no transaction is open; stale writes are discarded; the connection is replaced only when the rollback failed |
| `TxWrapper.TransactionMixin.SafeRollback` | src/chat_db_tx.py:179-184 | the working copy is the durable state again, by rollback or by a new connection |
| `TxWrapper.TransactionMixin.CloseAndReopen` | src/chat_db_tx.py:104-111 | the new connection sees the durable state and has no open transaction |
| `TxWrapper.TransactionMixin.Read` | src/chat_db_tx.py:167-177 | an outermost read sees committed data only; a nested one sees its own transaction |
| `TxWrapper.GuardedNestedWritesSurvive` | src/chat_db_tx.py:116-121 | a nested call whose exception is caught keeps its writes and hooks |
| `TxMachine.WrapperIsAtomic` | src/chat_db_tx.py:113-165 | for any threads, nesting and failures: the file is the replay of the committed bodies in commit order, each call at most once; a returned write call committed once and fired its commit's hooks; a raised one committed and fired nothing |
| `TxMachine.ReadsAreClean` | src/chat_db_tx.py:167-177 | one thread at a time inside; a `_read` sees the replay of the log, a body that plus its own writes of this attempt |
| `TxMachine.LeavesNothingOpen` | src/chat_db_tx.py:134-142 | whoever leaves the locked region leaves no open transaction, no hook, depth 0 everywhere and a free lock |
| `TxMachine.RetryStartsClean` | src/chat_db_tx.py:143-154 | the second attempt starts on durable data with no writes or hooks of the first |
| `TxMachine.StepKept` | src/chat_db_tx.py:113-184 | every step of a thread keeps lock, connection, call, log and hook invariants |
| `TxMachine.MoverConn` | src/chat_db_tx.py:83-165 | a thread keeps its own view of the connection right and releases the lock only over a clean one |
| `TxMachine.HooksKept` | src/chat_db_tx.py:139-164 | hooks fired plus hooks still to fire are what the commit recorded, per call |
| `TxMachine.OtherProcessKept` | src/chat_db_tx.py:83-92 | commits of another process between steps keep the invariants |
| `TxBus.FileIsARun` | src/chat_db_tx.py:113-177 | for any threads, failures and other processes: the file is the bus run of the committed statements, a `_read` sees that run, and a body that run followed by its own statements |
| `TxBus.ReturnedCallIsOnePiece` | src/chat_db_tx.py:124-142 | a write call that returned did its statements in one piece of that run |
| `TxBus.NothingIsLostInTheFile` | src/chat_db_impls.py:19-84 | every id a commit handed out is a row, or was deleted by a committed pruning when it was not pending |
| `TxAgreement.BodyRuns` | src/chat_db_tx.py:113-122 | for every nested body, the machine's steps leave the writes, hooks, depth and exception that the wrapper's code leaves |
| `TxAgreement.AttemptRuns` | src/chat_db_tx.py:127-142 | the machine commits, logs and hands over hooks, or fails without a trace, exactly as one attempt of the wrapper |
| `TxAgreement.CallRuns` | src/chat_db_tx.py:124-165 | the same for the whole call with its one retry |
| `TaskQueues.TaskQueue.constructor` | src/task_queue.py:23-29 | the queue opens a file with whatever rows it holds |
| `TaskQueues.TaskQueue.Enqueue` | src/task_queue.py:31-52 | inserts one pending row under the next id and returns that id |
| `TaskQueues.TaskQueue.EnqueueRouted` | src/task_queue.py:54-85 | inserts one row that is routed from the start |
| `TaskQueues.TaskQueue.ClaimNext` | src/task_queue.py:87-109 | the claim statement's whole effect and the row it returns |
| `TaskQueues.TaskQueue.DrainPending` | src/task_queue.py:171-179 | one statement on the project's pending rows, and how many there were |
| `TaskQueues.TaskQueue.ListRunningRows` | src/task_queue.py:164-169 | every running row with its id, in id order |
| `TaskTable.ClaimMeaning` | src/task_queue.py:87-109 | a claim succeeds exactly when the project has pending work and nothing running; it takes the head of the listing and changes that row only |
| `TaskTable.ListPendingMeaning` | src/task_queue.py:148-154 | the listing holds exactly the pending rows, higher priority first, then smaller id; the claim's subquery picks its first |
| `TaskTable.FirstIsHead` | src/task_queue.py:96-106 | the subquery finds a row before all other pending ones, or there is none |
| `TaskTable.GetRunningMeaning` | src/task_queue.py:156-162 | nothing is returned exactly when nothing runs |
| `TaskTable.ListRunningMeaning` | src/task_queue.py:164-169 | exactly the running rows, by id |
| `TaskTable.DrainMeaning` | src/task_queue.py:171-179 | row by row: exactly the listed rows are cancelled and nothing else about them changes; other projects' listings and everything running stay; as many rows as were listed |
| `ProjectTools.ClampPriority` | chat/project_tools.py:21-26 | the allowed priority nearest to the requested one |
| `ProjectTools.EnqueueTaskTool` | chat/project_tools.py:42-78 | both refusals leave the queue alone; otherwise one row with the clamped priority and the effective verdict, and the announced branch is the one the worker will use |
| `ProjectTools.RetryTaskTool` | chat/project_tools.py:102-142 | each refusal with its cause and no change; otherwise a new row that names its terminal original and inherits branch, verdict and clamped priority |
| `ProjectWorker.RunTask` | src/project_worker.py:64-103 | one turn: table, repository and notice are those of the specified turn |
| `ProjectWorker.Supervise` | src/project_worker.py:83-103 | from set_pid to the last update and its notice, including timeout and external cancellation |
| `ProjectWorker.TurnMeaning` | src/project_worker.py:64-103 | a turn on a running row leaves that row terminal with the status its ending calls for, changes no other row, and is silent exactly when a canceller was first and the process then ended by itself |
| `WorkerLoops.WorkerLoop` | src/project_worker.py:129-145 | the loop is the iteration of its rounds until it exits |
| `WorkerLoops.OneRound` | src/project_worker.py:136-145 | one round: claim and run, or look at the idle time |
| `WorkerLoops.RoundClock` | src/project_worker.py:136-145 | a round that runs a task restarts the idle clock at the end of it; any other leaves the clock, and exits exactly when it stands at the idle time or more |
| `WorkerLoops.ExitsOnlyIdle` | src/project_worker.py:138-142 | the round it exits on found nothing it may claim, and its clock is at least the idle time past the end of the last task |
| `WorkerLoops.RoundFinishesHead` | src/project_worker.py:136-145 | a round finishes the head of the queue and touches no other row |
| `WorkerLoops.LoopDrains` | src/project_worker.py:129-145 | undisturbed, the worker has drained its project after as many rounds as there were pending rows, however the turns end |
| `TaskControl.CancelRunningTask` | src/task_control.py:38-70 | SIGTERM to a positive pid, SIGKILL after it when the process was found and has not exited; update, notice and drain count for every case |
| `TaskControl.CancelMeaning` | src/task_control.py:38-70 | row by row: the running row of the project is cancelled, its pending rows exactly with a drain, and nothing else |
| `TaskControl.CancelStopsProject` | src/task_control.py:38-70 | a draining cancel leaves the project neither running nor pending work and everything else as it was |
| `ActorRefinement.StepsRefineCancel` | src/task_control.py:38-70 | the interleaved canceller, alone, is done after at most four steps with the table and the notice of the one call |
| `GhostReaper.SweepGhosts` | src/ghost_reaper.py:30-69 | table, notices and count after a sweep; a row changed exactly as `SweepExactly` says, and exactly the changed rows were announced |
| `GhostReaper.ReapRow` | src/ghost_reaper.py:43-68 | a running row fails exactly when its positive pid is not alive, or it has none and no readable start less than 120 seconds ago; then it is announced |
| `GhostReaper.SweepMeaning` | src/ghost_reaper.py:30-69 | exactly the ghosts fail, each announced once, in id order, with its final row |
| `GhostReaper.SweepExactly` | src/ghost_reaper.py:30-69 | a row differs after a sweep exactly when it ran with a positive pid that is not alive, or without one and without a readable start less than 120 seconds ago; it is failed for that reason and announced once, in id order |
| `GhostReaper.SweepUnwedges` | src/ghost_reaper.py:27-69 | afterwards every running row is excused, and a project without an excused row can claim the head of its queue |
| `ActorRefinement.StepsRefineSweep` | src/ghost_reaper.py:30-69 | the interleaved reaper, alone, fails and announces exactly what one sweep does |
| `ActorRefinement.RowIsReaped` | src/ghost_reaper.py:43-68 | one row of the snapshot takes one step or three, and does what the loop body does |
| `QueueSafety.StepInv` | src/task_queue.py:31-179 | every step of every actor keeps all invariants, and rows only evolve |
| `QueueSafety.TableKept` | src/task_queue.py:87-130 | one running row a project and settled retries survive every statement |
| `QueueSafety.EffectEvolves` | src/task_queue.py:31-179 | rows keep identity, statuses only climb, new rows are new ids |
| `QueueSafety.HistoryKept` | src/task_queue.py:87-109 | no id is claimed twice, and what runs was claimed |
| `QueueSafety.ActorsKept` | src/project_worker.py:64-103 | whatever an actor still writes by id was claimed, and no two workers share one |
| `QueueSafety.BranchesKept` | src/branch_prep.py:122-141 | one creation request a task, and every schema-shaped branch was requested |
| `QueueSafety.NoticesKept` | src/project_worker.py:123-126 | who moves a row out of `running` owes its notice until it is given |
| `QueueTheorems.QueueIsSafe` | src/task_queue.py:31-179 | over every run and interleaving: one running row a project, each task claimed at most once, statuses only climb, routed rows stay routed, terminal rows stay terminal, retries name settled smaller ids |
| `QueueTheorems.RetryChainsEnd` | chat/project_tools.py:105-136 | following `retry_of` descends through terminal rows to an original |
| `QueueTheorems.BranchNamesAreFresh` | src/branch_prep.py:122-141 | git is never asked for a branch that exists in any repository or was asked for before |
| `QueueTheorems.EveryEndingIsAnnounced` | src/project_worker.py:87-103 | a claimed task that left `running` was announced, or somebody stands between update and notice, or crashed there |
| `QueueTheorems.QuietMeansAnnounced` | src/ghost_reaper.py:62-66 | with nobody mid-task and no crash, no ending is silent |
| `QueueTheorems.ClaimTakesHead` | src/task_queue.py:87-109 | in any state, the claimed row is the first of `list_pending` |
| `QueueTheorems.AheadStep` | src/task_queue.py:87-109 | one step changes the number of tasks ahead by its claim and its higher-priority insert, and nothing else |
| `QueueTheorems.WaitingLaw` | src/task_queue.py:87-109 | claims made plus tasks still ahead are tasks ahead at first plus overtakers |
| `QueueTheorems.WaitingIsBounded` | src/task_queue.py:148-154 | after that many claims a waiting task is next, and after one more it waits no longer |
| `QueueLimits.OverwrittenExactlyWhen` | src/task_queue.py:111-130 | a finished row changes status exactly when the moving actor is about to write another status to that row |
| `QueueLimits.CancelledThenDone` | src/task_queue.py:111-130 | a run of eleven steps in which a cancelled row becomes done |
| `QueueFinality.FinalExactlyWhen` | src/task_queue.py:111-130 | a finished row keeps its status over every run exactly when no actor's local state lets it still write another one |
| `QueueFinality.SettledStays` | src/task_queue.py:111-130 | the condition, once true, stays true and keeps the status, whatever everybody does |
| `QueueFinality.UnheldIsFinal` | src/task_queue.py:111-130 | a finished row that no actor holds is nobody's for good and keeps its status |
| `QueueFinality.MayMeansCan` | src/task_queue.py:111-130 | whatever an actor may still write, from refusal at any point of a preparation to a sweep's verdict, some run writes |
| `TurnRefinement.StepsRefineTurn` | src/project_worker.py:64-103 | the interleaved worker, alone but for a cancellation, ends in exactly the state of the one-call turn |
| `TurnRefinement.LaunchingEnds` | src/project_worker.py:83-103 | the same from launching the process |
| `TurnRefinement.PriorEnds` | src/branch_prep.py:74-119 | the same through the recorded-branch half of preparation |
| `TurnRefinement.FreshEnds` | src/branch_prep.py:122-141 | the same through the new-branch half |
| `GitNames.SlugifyShaped` | src/git_ops.py:78-85 | a slug is 1 to 40 characters of [a-z0-9-] without leading, trailing or doubled hyphen |
| `GitNames.SlugIffFixed` | src/git_ops.py:78-85 | the strings of that shape are exactly the ones slugify leaves alone |
| `GitNames.SlugifyIdempotent` | src/git_ops.py:78-85 | slugify twice is slugify once |
| `GitNames.SlugSpellsBody` | src/git_ops.py:78-85 | a slug's letters and digits are the first ones of the body in order; without any it is the default |
| `GitNames.SlugJoinsWords` | src/git_ops.py:78-85 | a slug is the body's words in lower case joined by hyphens, cut at 40 characters, less a hyphen the cut left at the end; without words it is the default |
| `GitNames.ParseOfDecimal` | src/git_ops.py:88-89 | the decimal task id reads back |
| `GitNames.TaskBranchNameReadsBack` | src/git_ops.py:73-89 | every generated name passes the schema check and carries its task id |
| `GitNames.TaskBranchNameSays` | src/git_ops.py:88-89 | a generated name is the prefix, the decimal id, a hyphen and the slug of the body |
| `GitNames.ValidExactlyWhen` | src/git_ops.py:70-75 | the check accepts exactly the prefix, digits, a hyphen and slug characters, with at most one newline after them |
| `GitNames.TaskBranchNameInjective` | src/git_ops.py:88-89 | equal names mean equal task ids |
| `GitNames.TaskBranchNameStripped` | src/branch_prep.py:39-46 | stripping a generated name changes nothing, so a recorded name is found again |
| `GitNames.StripEdges` | src/branch_prep.py:39-46 | a stripped name has no blank at either end and stripping is idempotent |
| `GitNames.StripExactly` | src/branch_prep.py:39-46 | stripping takes the blanks off both ends and nothing else, and leaves nothing exactly of a blank string |
| `BranchPrep.PrepareBranch` | src/branch_prep.py:49-71 | table, repository and answer are those of the decision matrix |
| `BranchPrep.HandlePrior` | src/branch_prep.py:74-119 | the recorded-branch rows of the matrix |
| `BranchPrep.NewBranch` | src/branch_prep.py:122-141 | the new-branch rows of the matrix |
| `BranchPrep.PrepareSafe` | src/branch_prep.py:31-141 | HEAD moves only from a clean tree, no ref is moved or removed, at most this task's name is added, a refusal leaves git alone and fails this row with a reason, success keeps every status |
| `BranchPrep.PrepareWrites` | src/branch_prep.py:49-141 | one failure with its reason, or at most one branch recorded |
| `BranchPrep.PrepareExplains` | src/branch_prep.py:49-141 | the reason of every failure by tree and branch; nothing is done outside a repository; a checkout puts HEAD on its branch's own commit |
| `BranchPrep.PrepareMoves` | src/branch_prep.py:74-141 | at most one checkout, from a clean tree |
| `BranchPrep.PrepareLandsOnRecordedBranch` | src/branch_prep.py:31-141 | after success HEAD is the branch on the row and is schema-valid, or nothing was needed and nothing changed |
| `BranchPrep.PrepareFailsExactlyWhen` | src/branch_prep.py:49-141 | it fails exactly when a switch is needed and the tree is dirty, git refuses, or the new name is taken |
| `AckAgreement.AckAgreesWithPreparation` | src/reply_router.py:117-146 | if the row is prepared successfully the acknowledgement was true, whatever the repository was by then |
| `AckAgreement.ClaimedAsEnqueued` | src/task_queue.py:87-109 | after any run an unclaimed row is claimed exactly as it was enqueued |
| `AckAgreement.AckHoldsAcrossTheQueue` | src/reply_router.py:149-188 | enqueue, any interleaved run, claim, preparation: the acknowledgement sent at the start holds |
| `AckAgreement.AckHoldsStepByStep` | src/reply_router.py:149-188 | after any run from an empty queue, the same with every git command interleaved with all other actors and hands: the step on which the preparation succeeds honours the acknowledgement; a fresh branch instead of the prior means the prior was gone at some point of the run after the enqueue |
| `AckAgreement.MoverPath` | src/branch_prep.py:49-141 | a worker keeps to the path its snapshot asks for, and enters the new-branch path only without a usable prior or finding it gone |
| `ReplyRouter.ApplyReply` | src/reply_router.py:149-188 | the reply row is always recorded, with its log row; an answer to a question and a reply without a project queue nothing; else the whole enqueued row, with the branch it continues if there is one, and its acknowledgement |
| `ReplyRouter.PriorBranchMeaning` | src/reply_router.py:64-114 | a reply continues a branch exactly when the answered email is one this agent sent and names a task of the same project with a schema-valid branch, or names no task while the project is on a schema-valid branch; then it is that very branch, stripped |
| `ReplyRouter.RoutesReply` | src/reply_router.py:149-188 | the row and the acknowledgement of a reply by what was answered, without the router's own decisions: with a branch to continue both name it, and only then |
| `ReactionRouter.HandleReply` | src/chat_handlers.py:110-129 | one reply row either way, with the text, or the verdict or the tag of a reaction; a reaction never queues work, everything else is routed as a reply |
| `ReactionRouter.HandleReaction` | src/reaction_router.py:28-55 | "yes" or "no" on a question, the tag in brackets on anything else, and the answer that says which |
| `ReactionRouter.ReactionExactlyWhen` | src/reaction_router.py:11-25 | a text is a reaction exactly when it is blanks, a known tag in brackets in any case, and later a phrase; the reaction is that tag in lower case |
| `ReactionRouter.PlainReplyIsKept` | src/chat_handlers.py:110-128 | a text of any other shape is recorded as it is |
| `ReactionRouter.SaysYesExactlyWhen` | src/reaction_router.py:17-46 | a reaction answers a question with "yes" exactly when its tag is not a negative one and is spelled in letters that lower-case to ASCII, and else with "no"; on anything else the tag is recorded |
| `WakeSessions.LookupSession` | src/wake_watcher.py:72-82 | cache first, then store; an expired row is deleted |
| `WakeSessions.SessionCache.Get` | src/wake_helpers.py:75-83 | an expired entry is dropped and not returned |
| `WakeSessions.LookupIsStoreOnly` | src/wake_helpers.py:27-86 | the two levels answer exactly like the store alone, leave the store as it would, and keep agreeing |
| `WakeSessions.ResumesLatestGoodTurn` | src/wake_watcher.py:72-93 | over every run with restarts: a turn resumes exactly when the agent's latest exit-0 turn is recent enough, and then that very id |
| `WakeTurns.SpawnExactly` | src/wake_watcher.py:44-83 | a turn spawns exactly for a running agent with a project, waiting mail and no live owner; it resumes the stored session exactly when that is recent enough, else it runs in the new one |
| `WakeTurns.SessionsAfterTurn` | src/wake_watcher.py:72-106 | after a genuine exit 0 cache and store hold the session the turn ran in, with their times; any other ending leaves what the lookup left; other agents' entries stay |
| `WakeTurns.TurnsAreSessions` | src/wake_watcher.py:44-106 | any run of turns of any agents with restarts is a run of the session machine |
| `WakeTurns.SpawnResumesLatestGood` | src/wake_watcher.py:72-93 | over such runs a spawn of `process_agent` resumes the session of that agent's latest exit-0 turn if that is recent enough, else it starts a new one |
| `WakeWatcher.ProcessAgent` | src/wake_watcher.py:44-108 | one turn with the lock taken and released: mail, statuses, event log, sessions and tracker; with the lock held nothing happens |
| `WakeWatcher.DriveTurn` | src/wake_watcher.py:72-106 | from lookup to the tracker: all outcomes of a spawn, with its log rows and the cleared statuses of a success |
| `WakeWatcher.HandleFailure` | src/wake_watcher.py:111-144 | counting, the stalled status of the running task, clearing the mail from the limit on, and the rate-limited notice |
| `WakeWatcher.StalledIsSentOnce` | src/status_envelope.py:136-151 | a stalled task is reported to the user, and not again until its column is cleared |
| `WakeWatcher.TurnBurnsFuel` | src/wake_watcher.py:59-131 | with no new mail, a spawned turn that returns strictly lowers undelivered * (max_failures + 1) + failures left, or leaves no mail |
| `WakeWatcher.RoundBurnsFuel` | src/wake_watcher.py:59-131 | the same for a round with other consumers at work before it: a spawn costs at least one, and nothing adds any |
| `WakeWatcher.SpawnsAreBounded` | src/wake_watcher.py:147-192 | over any number of rounds the spawns for an agent stay within that number |
| `WakeWatcher.NoticesAreSpaced` | src/wake_watcher.py:132-144 | over any rounds, two notices about one agent are at least the rate limit apart |
| `WakeWatcher.AfterFailure` | src/wake_watcher.py:115-131 | a failure adds one to the count, and from the limit on it empties the agent's mail whether or not the user is notified |
| `WakeWatcher.FailureExactly` | src/wake_watcher.py:111-144 | every column of a failure: the count, one stalled status unless it was the last one, the mail failed from the limit on, and the notice exactly when the rate limit allows it |
| `WakeWatcher.TurnExactly` | src/wake_watcher.py:83-108 | a spawn that raised leaves one log row; one that exited well and handled some waiting mail clears count and statuses; every other is a failure |
| `WakeWatcher.QuietExactly` | src/wake_watcher.py:55-71 | without a spawn only the mail of an agent that is not running is failed |
| `ChatDbs.ChatDb.InsertMessage` | src/chat_db_impls.py:19-40 | one pending row under the next id, and its row in the event log |
| `ChatDbs.ChatDb.EmitStatusMessage` | src/chat_db_impls.py:130-154 | nothing when the same status was the last one sent; else the column, the message and its log row |
| `ChatDbs.ChatDb.ClaimPendingMessagesFor` | src/chat_db_impls.py:49-59 | one statement on the pending rows of the agent, whose ids come back in order |
| `ChatDbs.ChatDb.RecoverFailedMessagesFor` | src/chat_db_impls.py:78-84 | one statement on the agent's failed rows, and their number |
| `ChatDbs.ChatDb.RecordOutboundEmail` | src/outbound_emails_store.py:20-52 | an empty id is refused; a known one only gets missing columns filled in |
| `ChatDbs.ChatDb.CleanupOld` | src/db_maintenance.py:17-30 | old messages that are not pending, old events and old outbound ids go, each counted; the rest stays |
| `ChatDbs.RecentIsPicked` | src/db_maintenance.py:24-26 | the events kept are exactly those written since the cutoff, in their order |
| `MessageTable.PendingIdsMeaning` | src/chat_db_impls.py:42-47 | exactly the recipient's pending rows, by id |
| `MessageTable.ClaimMeaning` | src/chat_db_impls.py:49-59 | row by row: exactly the agent's pending rows are handed out in id order and delivered; its list is empty then, and the others' lists are as they were |
| `MessageTable.RecoverMeaning` | src/chat_db_impls.py:78-84 | no failed row of the agent is left; its next claim hands out what was pending and what was failed, in id order |
| `MessageTable.PruneMeaning` | src/db_maintenance.py:17-21 | exactly the old rows that are not pending go; no list of pending mail changes, and pruning again finds nothing |
| `MessageTable.FindIsThatRow` | src/chat_db_impls.py:94-101 | with one row per Message-ID the lookup finds that row |
| `MessageTable.GetReplyMeaning` | src/chat_db_impls.py:120-128 | the newest reply naming the message, or there is none |
| `BusRuns.NothingIsLost` | src/chat_db_impls.py:19-84 | in every run a posted id is a row with one status, or was deleted when it was not pending |
| `BusRuns.PendingAgainMeansRecovered` | src/chat_db_impls.py:78-84 | a message that left pending is pending again only through a failure mark and a later recovery |
| `BusRuns.DeliveredStaysExactlyWhen` | src/chat_db_impls.py:68-84 | over any run, a delivered message stays delivered exactly when no failure mark finds it |
| `BusRuns.StatusExactlyWhen` | src/chat_db_impls.py:49-84 | a delivered message is failed at the end exactly when the last failure mark found it and no mark, recovery or pruning followed; pending exactly when a recovery found it failed and no mark or claim followed |
| `BusRuns.ClaimedAgainExactlyWhen` | src/chat_db_impls.py:49-84 | a claimed message is claimed again exactly when its recipient claims and it was failed, recovered and then left alone in between |
| `BusRuns.ClaimedTwice` | src/chat_db_impls.py:49-84 | two claims return the same message only with a failure mark and a recovery between them |
| `BusRuns.ClaimsAreTheInbox` | src/chat_db_impls.py:49-59 | with no delivered or failed mark by id, claims in order plus what is pending are the posts in order: no repeat, no gap |
| `BusRuns.DeliveredIsNotFinal` | src/chat_db_impls.py:73-84 | a run in which a delivered message is handed out again |
| `ChatRelay.RelayOutboundMessages` | src/chat_relay.py:60-116 | there is a cut, the first owed email that met a transient error: every earlier message is settled as `RelayExactly` says, nothing from it on is touched, emails and stored ids are those of the prefix |
| `ChatRelay.RelayMessage` | src/chat_relay.py:77-116 | what the loop body does to one message |
| `ChatRelay.Cut` | src/chat_relay.py:104-106 | the first message with a transient error |
| `ChatRelay.EmailsMeaning` | src/chat_relay.py:60-116 | one email for each message sent, in id order, with its own id |
| `ChatRelay.RelayExactly` | src/chat_relay.py:35-116 | before the cut a message is emailed exactly when it asks, its task came by email or the user has written to its sender, and the server took it; refused, it is failed; not owed, it is delivered without an email and keeps its Message-ID |
| `ChatRelay.FateExactly` | src/chat_relay.py:35-57 | the same for one message |
| `ChatRelay.AskNeverDropped` | src/chat_relay.py:35-57 | an `ask` before the cut that ended delivered was emailed, and its Message-ID is on it |
| `ChatRelay.EmailsAreRecorded` | src/chat_relay.py:107-115 | every sent id is stored, a new one with its message's sender and task |
| `AskAnswer.AskUser` | chat/tools.py:68-97 | the status report, the question as one row, their log rows, the first reply a poll finds or a timeout, and the cleared status; on the runs of the bus, an answer is what `AskUserReturnsItsAnswer` says of the very id inserted |
| `AskAnswer.PollForReply` | chat/tools.py:87-97 | the answer is the body of the first reply a poll finds; a timeout means no poll within it found one |
| `AskAnswer.AnswersNeverCross` | chat/tools.py:82-97 | the reply found for an ask came in with an email that answered a Message-ID issued for that ask alone, is addressed to the asker, and is that email's text or the verdict of the reaction it is |
| `AskAnswer.AskUserReturnsItsAnswer` | chat/tools.py:82-97 | polling any states of the bus after its question, what `ask_user` returns is what the user wrote in answer to the email that asked it, or the verdict of the user's reaction to that email |
| `AskAnswer.AskingPosts` | chat/tools.py:80-86 | what `ask_user` writes first is a run of the bus that ends with the question under the returned id |
| `AskAnswer.DifferentAsksDifferentHeaders` | src/chat_router.py:46-54 | two asks are never answered by the same header |
| `AskAnswer.AnswerReachesAsker` | src/chat_router.py:46-54 | an answer to a message's current Message-ID is routed to its sender, recorded against it as text, verdict or tag, and found by its next poll |
| `AskAnswer.StepInv` | src/chat_handlers.py:110-134 | every bus step keeps rows, issued ids and replies in agreement |
| `EmailThread.ResolveAnchor` | src/email_thread.py:69-82 | the known parent, else the newest known reference, else nothing |
| `ThreadWalk.WalkThread` | src/email_thread.py:101-110 | the chain is the turns of the specified walk |
| `ThreadWalk.WalkMeaning` | src/email_thread.py:101-110 | on any table: starts at the anchor, follows parents, visits nothing twice, at most the depth limit, and stops only where it must |
| `ThreadWalk.ContentMeaning` | src/email_thread.py:112-113 | the chain without progress notes, acknowledgements and statuses, from its end to its front |
| `EmailThread.CapTurns` | src/email_thread.py:115-116 | the newest turns within the limit; a negative limit fails |
| `EmailThread.CapChars` | src/email_thread.py:118-121 | drops the oldest turns as long as the rest is too long |
| `EmailThread.BuildEmailThreadTranscript` | src/email_thread.py:85-127 | from the known parent, else from the newest known reference: exactly the longest suffix of the kind-filtered, oldest-first chain within both budgets, and which Message-IDs those turns belong to |
| `EmailThread.TurnsAreStored` | src/email_thread.py:43-66 | every turn of a transcript is the stored message with its Message-ID, else the sent email, column for column, with the defaults for missing senders and kinds |
| `ThreadWalk.CapsKeepLongest` | src/email_thread.py:115-121 | the two loops together keep the longest suffix |
| `ThreadWalk.LongestFound` | src/email_thread.py:115-121 | there is only one such suffix: the first that fits, searched from the oldest turn on |
| `ThreadWalk.SuffixIsLongest` | src/email_thread.py:115-121 | a suffix fits exactly when it is inside the result |
| `ThreadWalk.NewestSurvives` | src/email_thread.py:91-121 | the newest turn survives exactly when a turn is allowed and its body fits |
| `EmailThread.PrepareRouterCommand` | src/email_thread.py:130-154 | the inbound turn is stored first, with its log row; the context is then the longest suffix within 8192 characters and 20 turns of the thread above the known parent, else above the newest known reference |
| `EmailThread.InOwnContextExactlyWhen` | src/email_thread.py:130-154 | a message with an unknown Message-ID gets into the context it is given exactly when the thread stored before leads from the call's anchor to it, with room left in depth, turns and characters |
| `ThreadWalk.KeptExactlyWhen` | src/email_thread.py:101-121 | the same for any lookup that learns one more turn at which a walk ends |
| `EmailThread.UnansweredStaysOut` | src/email_thread.py:130-154 | a message that nothing stored answers is out of its own context in every call that does not anchor at it |
| `EmailThread.NoteBringsItIn` | main.py:85-97 | the failing input: with the progress note about it stored, a message that names the note as its parent is in its own context |
| `EmailThread.AnchoredAtItself` | src/email_thread.py:130-154 | a call anchored at its own new message gets that message as its whole context exactly when its body fits, and else none |
| `ThreadWalk.UnvisitedExactlyWhen` | src/email_thread.py:101-110 | no walk that starts elsewhere visits a stored id exactly when no other stored turn names it as its parent |
| `EventStream.EventStreamer.constructor` | chat/dashboard.py:57-59 | the hello frame carries both watermarks: the highest message and the highest flow event there are, or 0 |
| `EventStream.OpensAtHighest` | src/dashboard_queries.py:99-135 | each watermark is 0 for an empty list and otherwise a member that no other exceeds, flow-typed events only for the second |
| `EventStream.EventStreamer.PollOnce` | chat/dashboard.py:64-69 | a round emits one page of each kind after its watermark, in order, and moves the watermarks to the last row sent |
| `EventStream.EventStreamer.StreamEvents` | chat/dashboard.py:60-70 | the loop is the iteration of its rounds until the client disconnects |
| `EventStream.RoundKeeps` | chat/dashboard.py:64-69 | the streamer's round is the poll of each table's log, seen through its own frames |
| `EventStream.StreamRefinesLog` | chat/dashboard.py:57-70 | the hello frame names the highest rows there are and no row present at connection is ever sent; in every run of posts, events, deletions and rounds, the message frames sent are a gap-free, duplicate-free prefix of the messages after the hello watermark, the event frames of the flow-typed events after theirs, and one more round sends the next page of each |
| `EventStream.FlowLogGrows` | src/dashboard_queries.py:105-123 | the flow stream's log gets an id exactly for an event of a flow type |
| `EventStream.FlowLogHides` | src/dashboard_queries.py:105-123 | deletion and restriction to the flow types commute |
| `EventStream.DeletionsUnseen` | src/dashboard_queries.py:84-94 | rows deleted at or below the watermark, or never there, do not change the query |
| `EventStream.NewerCut` | src/dashboard_queries.py:105-123 | moving the watermark to a row leaves exactly the rows after it |

## Left out

- SMTP, IMAP, MIME, HTML, GPG and shared-secret checks: a send gives an id, a permanent error or a transient one.
- SQLite itself, WAL, migrations and SQL text; foreign keys are not enforced.
- Subprocesses, signals and process tables: liveness, exit and permission are inputs; `_wait_for_exit` is one of them.
- MCP and web plumbing, dashboard markup, configuration, prompts and log lines.
- JSON envelopes, suggested replies, subject tags; the text of a status message is its status.
- The verb classifiers: `classify_mutation` is any function to true, false or unknown.
- Project path resolution, `ensure_worker` and the agent registry: their answers are inputs.
- Columns with no effect on the modelled behaviour: `completed_at`, `created_at` of tasks, `origin_*`, `dispatch_token`, `plan_first`; output text is kept as given, without `_tail`.
- `started_at` of claims is a number of seconds; unreadable values are a separate case.
- Unicode digits and Unicode blanks in the schema check, in `strip` and before a reaction's tag.
- A repository without any commit, and files of the working tree: a checkout that git would refuse is an input.
- Splitting a References header into ids: the list of ids is given.
- `run_wake_watcher`: its loop over recipients runs turns of different agents at once; the model has one agent's rounds with any other traffic between and during them.
- Summaries and participants of event-log rows: `ChatDbs` keeps kind and time, `EventStream` id and kind.
- How often a completion is announced in an interleaved run: it can be twice, and the machine keeps only whether it was.
- ChatRelay.RelayOutboundMessages: does not model other writers during a batch, because the relay's own loop is one thread; `BusRuns` has the interleaved statements.
- WorkerLoops.WorkerLoop: covers as many rounds as the list of world inputs has, because the source's loop ends only when idle.
- ReactionRouter.HandleReply: stops before the acknowledgement email is sent; storing that email's id is `ChatDbs.ChatDb.RecordOutboundEmail`.
