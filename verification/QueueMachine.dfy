/** Every actor on the task table, interleaved one SQL statement, git command or
    notification at a time. An actor's local variables live in its `Actor` value,
    so everything another actor does may happen between any two of its steps. */
module QueueMachine {
  import opened Base
  import opened GitNames
  import opened GitModel
  import opened TaskTable
  import opened BranchPrep
  import opened ProjectWorker
  import opened ProjectTools
  import opened GhostReaper

  /** Where a worker stands inside `worker_loop`, `prepare_branch` and `run_task`. */
  datatype WorkerPc =
    | Polling
    | Deciding
    | ReadingHead
    | CheckingSwitch
    | LookingUpPrior
    | SwitchingToPrior
    | CheckingFresh
    | Creating
    | RecordingBranch(name: string)
    | Refusing(why: Reason)
    | Launching
    | Waiting
    | Checking(exit: Exit)
    | Marking(exit: Exit)
    | Finishing

  datatype CancelPc = ReadingRunning | Cancelling | Announcing | Draining

  datatype ReapPc = Sweeping | Failing(why: Reason) | Reporting

  datatype RetryPc = ReadingOriginal | Inserting(original: Task)

  datatype Actor =
    | Worker(project: string, wpc: WorkerPc, id: int, snap: Task)
    | Canceller(project: string, drain: bool, cpc: CancelPc, id: int)
    | Reaper(todo: seq<(int, Task)>, rpc: ReapPc, now: int, id: int)
    | Retrier(id: int, newBody: string, tpc: RetryPc)

  /** What the world answers in a step: git's permission, liveness of a pid, the
      clock, the new process, its ending. */
  datatype Oracle = Oracle(yes: bool, now: int, pid: int, exit: Exit, text: string)

  datatype Action =
    | EnqueueTask(project: string, body: string, priority: int, branch: string, mutates: Option<bool>)
    | EnqueueRouted(project: string, body: string, now: int)
    | Start(who: int, actor: Actor)
    | Step(who: int, oracle: Oracle)
    | Crash(who: int)
    | UserGit(repoId: string, repo: Repo)

  /** What the actors share. The last three fields are history: ids in claim
      order, (id, name) of every `checkout -b` in order, ids announced. */
  datatype Shared = Shared(
    table: Table,
    repos: map<string, Repo>,
    claimed: seq<int>,
    asked: seq<(int, string)>,
    told: set<int>)

  /** `repoOf` names the repository a project path lives in, if any. `lost` holds
      the ids whose announcer crashed. */
  datatype State = State(db: Shared, repoOf: map<string, string>, actors: map<int, Actor>, lost: set<int>)

  // ---- actors -------------------------------------------------------------

  predicate AtEntry(actor: Actor) {
    match actor
    case Worker(_, pc, _, _) => pc == Polling
    case Canceller(_, _, pc, _) => pc == ReadingRunning
    case Reaper(todo, pc, _, _) => pc == Sweeping && todo == []
    case Retrier(_, _, pc) => pc == ReadingOriginal
  }

  /** The ids an actor will still write by. */
  function Held(actor: Actor): set<int> {
    match actor
    case Worker(_, pc, id, _) => if pc == Polling then {} else {id}
    case Canceller(_, _, pc, id) => if pc == Cancelling || pc == Announcing then {id} else {}
    case Reaper(todo, pc, _, id) =>
      (set i | 0 <= i < |todo| :: todo[i].0) + (if pc == Sweeping then {} else {id})
    case Retrier(_, _, _) => {}
  }

  /** The actor has moved this id out of `running` and not yet announced it. */
  predicate Owes(actor: Actor, id: int) {
    match actor
    case Worker(_, pc, i, _) => pc == Finishing && i == id
    case Canceller(_, _, pc, i) => pc == Announcing && i == id
    case Reaper(_, pc, _, i) => pc == Reporting && i == id
    case Retrier(_, _, _) => false
  }

  function Owed(actor: Actor): set<int> { set id | id in Held(actor) && Owes(actor, id) }

  predicate BeforeCreation(pc: WorkerPc) {
    pc in {Deciding, ReadingHead, CheckingSwitch, LookingUpPrior, SwitchingToPrior, CheckingFresh, Creating}
  }

  /** One step of a worker; `repo` is the repository of its project, if any. */
  function WorkerStep(db: Shared, repo: Option<string>, w: Actor, o: Oracle): (Shared, Actor)
    requires w.Worker?
  {
    match w.wpc
    case Polling =>
      var (t, id) := Claim(db.table, w.project, o.now);
      if id == None || id.value !in t.rows then (db, w)
      else (db.(table := t, claimed := db.claimed + [id.value]),
            Worker(w.project, Deciding, id.value, t.rows[id.value]))
    case RecordingBranch(name) => (db.(table := SetBranch(db.table, w.id, name)), w.(wpc := Launching))
    case Refusing(why) => (db.(table := MarkFailed(db.table, w.id, why)), w.(wpc := Finishing))
    case Launching => (db.(table := SetPid(db.table, w.id, o.pid)), w.(wpc := Waiting))
    case Waiting => (db.(table := SetOutput(db.table, w.id, o.text)), w.(wpc := Checking(o.exit)))
    case Checking(exit) =>
      (db, w.(wpc := if w.id in db.table.rows && db.table.rows[w.id].status == Running then Marking(exit)
                     else if exit.TimedOutExit? then Finishing else Polling))
    case Marking(exit) => (db.(table := MarkExit(db.table, w.id, exit)), w.(wpc := Finishing))
    case Finishing => (db.(told := db.told + {w.id}), w.(wpc := Polling))
    case _ =>
      if repo == None || repo.value !in db.repos
      then (db, if w.wpc == Deciding then w.(wpc := Launching) else w)
      else
        var (r, ask, pc) := PrepareStep(db.repos[repo.value], w.wpc, w.id, w.snap, o.yes);
        (db.(repos := db.repos[repo.value := r], asked := if ask.Some? then db.asked + [ask.value] else db.asked),
         w.(wpc := pc))
  }

  /** One git command of `prepare_branch`, in a repository: the repository after
      it, the name it asked git to create, and where the worker goes next. */
  function PrepareStep(r: Repo, pc: WorkerPc, id: int, snap: Task, yes: bool): (Repo, Option<(int, string)>, WorkerPc) {
    var prior := ValidPrior(snap);
    match pc
    case Deciding =>
      (r, None, if prior == "" && !IsMutating(snap) then Launching
                else if prior != "" then ReadingHead else CheckingFresh)
    case ReadingHead => (r, None, if CurrentBranch(r) == prior then Launching else CheckingSwitch)
    case CheckingSwitch => (r, None, if IsClean(r) then LookingUpPrior else Refusing(DirtyOnSwitch(prior)))
    case LookingUpPrior => (r, None, if BranchExists(r, prior) then SwitchingToPrior else CheckingFresh)
    case SwitchingToPrior =>
      var (r', ok) := CheckoutExisting(r, prior, yes);
      (r', None, if ok then Launching else Refusing(CheckoutRefused(prior)))
    case CheckingFresh => (r, None, if IsClean(r) then Creating else Refusing(RepoDirty))
    case Creating =>
      if id < 0 then (r, None, Creating)
      else
        var name := TaskBranchName(id, snap.body);
        var (r', ok) := CheckoutNew(r, name, yes);
        (r', Some((id, name)), if ok then RecordingBranch(name) else Refusing(CreateRefused(name)))
    case _ => (r, None, pc)
  }

  /** One step of a canceller; None when it is done. */
  function CancellerStep(db: Shared, c: Actor): (Shared, Option<Actor>)
    requires c.Canceller?
  {
    match c.cpc
    case ReadingRunning =>
      var running := GetRunning(db.table, c.project);
      (db, if running != None then Some(c.(cpc := Cancelling, id := running.value))
           else if c.drain then Some(c.(cpc := Draining)) else None)
    case Cancelling => (db.(table := Cancel(db.table, c.id)), Some(c.(cpc := Announcing)))
    case Announcing => (db.(told := db.told + {c.id}), if c.drain then Some(c.(cpc := Draining)) else None)
    case Draining => (db.(table := Drain(db.table, c.project)), None)
  }

  /** The snapshot `list_running` returns: ids with their rows. */
  function RunningRowsBelow(t: Table, n: nat): (rows: seq<(int, Task)>)
    ensures forall i | 0 <= i < |rows| :: rows[i].0 in t.rows && t.rows[rows[i].0].status == Running
  {
    if n == 0 then []
    else RunningRowsBelow(t, n - 1) +
         (if n - 1 in t.rows && t.rows[n - 1].status == Running then [(n - 1, t.rows[n - 1])] else [])
  }

  /** A sweep that has dealt with its whole snapshot takes the next one. */
  function ReaperStep(db: Shared, r: Actor, o: Oracle): (Shared, Actor)
    requires r.Reaper?
  {
    match r.rpc
    case Sweeping =>
      if r.todo == [] then (db, r.(todo := RunningRowsBelow(db.table, db.table.next), now := o.now))
      else
        var verdict := Verdict(r.todo[0].1, pid => o.yes, r.now);
        (db, if verdict == None then r.(todo := r.todo[1..])
             else Reaper(r.todo[1..], Failing(verdict.value), r.now, r.todo[0].0))
    case Failing(why) => (db.(table := MarkFailed(db.table, r.id, why)), r.(rpc := Reporting))
    case Reporting => (db.(told := db.told + {r.id}), r.(rpc := Sweeping))
  }

  function RetrierStep(db: Shared, r: Actor): (Shared, Option<Actor>)
    requires r.Retrier?
  {
    match r.tpc
    case ReadingOriginal =>
      (db, if r.id in db.table.rows && Terminal(db.table.rows[r.id].status)
           then Some(r.(tpc := Inserting(db.table.rows[r.id]))) else None)
    case Inserting(original) => (db.(table := Insert(db.table, RetryRow(original, r.id, r.newBody)).0), None)
  }

  function Advance(db: Shared, repo: Option<string>, actor: Actor, o: Oracle): (Shared, Option<Actor>) {
    match actor
    case Worker(_, _, _, _) => var (db', w) := WorkerStep(db, repo, actor, o); (db', Some(w))
    case Canceller(_, _, _, _) => CancellerStep(db, actor)
    case Reaper(_, _, _, _) => var (db', r) := ReaperStep(db, actor, o); (db', Some(r))
    case Retrier(_, _, _) => RetrierStep(db, actor)
  }

  /** The repository an actor's project lives in. */
  function RepoFor(repoOf: map<string, string>, actor: Actor): Option<string> {
    if actor.Worker? && actor.project in repoOf then Some(repoOf[actor.project]) else None
  }

  /** Assumption on people: schema-shaped branches are never made by hand. */
  predicate HandMade(old': Repo, new': Repo) {
    forall b | b in new'.branches && IsValidTaskBranch(b) :: b in old'.branches
  }

  /** One atomic step of the whole system; a step that is not enabled does nothing. */
  function Next(s: State, a: Action): State {
    match a
    case EnqueueTask(p, body, priority, branch, mutates) =>
      s.(db := s.db.(table := Insert(s.db.table, NewTask(p, body, priority, None, branch, mutates)).0))
    case EnqueueRouted(p, body, now) =>
      s.(db := s.db.(table := Insert(s.db.table, RoutedTask(p, body, now)).0))
    case Start(who, actor) =>
      if who in s.actors || !AtEntry(actor) then s else s.(actors := s.actors[who := actor])
    case Crash(who) =>
      if who !in s.actors then s
      else s.(actors := s.actors - {who}, lost := s.lost + Owed(s.actors[who]))
    case UserGit(repoId, repo) =>
      if repoId in s.db.repos && HandMade(s.db.repos[repoId], repo)
      then s.(db := s.db.(repos := s.db.repos[repoId := repo])) else s
    case Step(who, o) =>
      if who !in s.actors then s
      else
        var (db', actor') := Advance(s.db, RepoFor(s.repoOf, s.actors[who]), s.actors[who], o);
        s.(db := db', actors := if actor'.Some? then s.actors[who := actor'.value] else s.actors - {who})
  }

  /** A run: the state after the given actions, in order. */
  function Run(s: State, acts: seq<Action>): State {
    if acts == [] then s else Next(Run(s, acts[..|acts| - 1]), acts[|acts| - 1])
  }
}
